/**
 * The Intel `materialize-block-pointer` pass: which tensor-pointer loads get
 * the 2D block-IO attribute, and whether it reads `row_major` or
 * `column_major`.
 *
 * A load is described by its `make_tensor_ptr` operands and by what the
 * value analyses say about them. Whether an operand is known divisible by a
 * number, or known to be the constant 1, is the answer of an analysis this
 * model does not contain, so each operand carries those answers.
 */
module BlockPointer {

  import opened Wrappers

  /** An SSA operand, by the facts the divisibility and constant analyses report for it. */
  datatype Operand = Operand(isConstantOne: bool, divisors: set<nat>)

  /** `isDivisible(v, d)`: the analysis proves `v` a multiple of `d`. */
  predicate IsDivisible(v: Operand, d: nat) {
    d in v.divisors
  }

  /** A tensor layout: a dot-operand encoding (with its operand index), or any other. */
  datatype Encoding = DotOperand(opIdx: nat, parent: nat) | OtherEncoding(id: nat)

  /** The DPAS operand index of the A matrix. */
  const OperandA: nat := 0

  /** A user of the load's result. */
  datatype User = ConvertLayout(encoding: Encoding) | OtherUser

  /**
   * A load and the `make_tensor_ptr` its pointer comes from: the element bit
   * width, base, shape, strides and offsets; the encoding and thread order of
   * the pointee tensor; and the users of the loaded value.
   */
  datatype Load = Load(
    tensorPointer: bool,
    elementWidth: nat,
    base: Operand,
    shape: seq<Operand>,
    strides: seq<Operand>,
    offsets: seq<Operand>,
    encoding: Encoding,
    threadOrder: seq<nat>,
    users: seq<User>)

  /** What the IR guarantees: a positive bit width, and one stride, offset and order entry per dimension. */
  predicate WellFormed(ld: Load) {
    && ld.elementWidth > 0
    && |ld.strides| == |ld.shape|
    && |ld.offsets| == |ld.shape|
    && |ld.threadOrder| == |ld.shape|
  }

  /** The attribute value. */
  datatype Layout = RowMajor | ColumnMajor {
    function Name(): string {
      match this
      case RowMajor => "row_major"
      case ColumnMajor => "column_major"
    }
  }

  // ---------------------------------------------------------------------
  // getDotLayout
  // ---------------------------------------------------------------------

  /** Every user is a `convert_layout`. */
  predicate AllConvert(users: seq<User>) {
    forall i :: 0 <= i < |users| ==> users[i].ConvertLayout?
  }

  /** Every user converts to the first user's encoding. */
  predicate SameLayout(users: seq<User>)
    requires |users| > 0 && AllConvert(users)
  {
    forall i :: 0 <= i < |users| ==> users[i].encoding == users[0].encoding
  }

  /**
   * `getDotLayout`: the pointee's own dot-operand encoding, or else the one
   * encoding all users convert to, when there are users, all convert, and
   * that encoding is a dot operand.
   */
  function GetDotLayout(ld: Load): (r: Option<Encoding>)
    ensures r.Some? ==> ld.tensorPointer && r.value.DotOperand?
    ensures ld.tensorPointer && ld.encoding.DotOperand? ==> r == Some(ld.encoding)
    ensures r.Some? && !ld.encoding.DotOperand? ==>
              |ld.users| > 0 && forall i :: 0 <= i < |ld.users| ==> ld.users[i] == ConvertLayout(r.value)
    ensures forall d: Encoding ::
              (&& ld.tensorPointer && !ld.encoding.DotOperand? && d.DotOperand? && |ld.users| > 0
               && (forall i :: 0 <= i < |ld.users| ==> ld.users[i] == ConvertLayout(d))) ==> r == Some(d)
    ensures (&& ld.tensorPointer && !ld.encoding.DotOperand?
             && (forall i :: 0 <= i < |ld.users| ==> ld.users[i] == OtherUser)) ==> r.None?
  {
    if !ld.tensorPointer then None
    else if ld.encoding.DotOperand? then Some(ld.encoding)
    else if |ld.users| > 0 && AllConvert(ld.users) && SameLayout(ld.users) then
      if ld.users[0].encoding.DotOperand? then Some(ld.users[0].encoding) else None
    else None
  }

  // ---------------------------------------------------------------------
  // The eligibility rule
  // ---------------------------------------------------------------------

  /** The fast-changing dimension: the first stride that is the constant 1. */
  function FastChangeDim(strides: seq<Operand>): (r: Option<nat>)
    ensures r.Some? ==> r.value < |strides| && strides[r.value].isConstantOne
    ensures r.Some? ==> forall j :: 0 <= j < r.value ==> !strides[j].isConstantOne
    ensures r.None? <==> forall j :: 0 <= j < |strides| ==> !strides[j].isConstantOne
  {
    if |strides| == 0 then None
    else if strides[0].isConstantOne then Some(0)
    else match FastChangeDim(strides[1..])
         case None => None
         case Some(j) => Some(j + 1)
  }

  /** The pitch stride of a load whose fast dimension `f` is one of the last two. */
  function PitchIndex(rank: nat, f: nat): nat
    requires rank >= 2
  {
    if f == rank - 1 then rank - 2 else rank - 1
  }

  /** The thread order of the pointee is row-major: `[1, 0, ...]`. */
  predicate ValueRowMajor(ld: Load)
    requires |ld.threadOrder| >= 2
  {
    ld.threadOrder[0] == 1 && ld.threadOrder[1] == 0
  }

  /** A dot operand-A load whose thread order disagrees with the block's orientation. */
  predicate TransposedOperandA(ld: Load, isRowMajor: bool)
    requires |ld.threadOrder| >= 2
  {
    var dot := GetDotLayout(ld);
    dot.Some? && dot.value.opIdx == OperandA && ValueRowMajor(ld) != isRowMajor
  }

  /**
   * The conditions under which a load gets the attribute, all together:
   * a tensor pointer of rank at least 2 with a 4-divisible base; a unit
   * stride among the last two dimensions, and that dimension's shape and
   * offset divisible by `32 / width`; not an 8-bit column-major access; a
   * pitch divisible by `128 / width`; not a transposed A operand of a dot.
   */
  predicate Eligible(ld: Load)
    requires WellFormed(ld)
  {
    var rank := |ld.shape|;
    var w := ld.elementWidth;
    && ld.tensorPointer
    && rank >= 2
    && IsDivisible(ld.base, 4)
    && FastChangeDim(ld.strides).Some?
    && var f := FastChangeDim(ld.strides).value;
       && f >= rank - 2
       && IsDivisible(ld.shape[f], 32 / w)
       && IsDivisible(ld.offsets[f], 32 / w)
       && !(f == rank - 2 && w == 8)
       && IsDivisible(ld.strides[PitchIndex(rank, f)], 128 / w)
       && !TransposedOperandA(ld, f == rank - 1)
  }

  /** The attribute a load receives: row-major exactly when the last dimension is the fast one. */
  function BlockIO(ld: Load): (r: Option<Layout>)
    requires WellFormed(ld)
    ensures r.Some? <==> Eligible(ld)
    ensures r.Some? ==> (r.value == RowMajor <==> FastChangeDim(ld.strides) == Some(|ld.shape| - 1))
  {
    if Eligible(ld) then
      Some(if FastChangeDim(ld.strides).value == |ld.shape| - 1 then RowMajor else ColumnMajor)
    else None
  }

  /** Rank-1 loads and loads not through a tensor pointer are never annotated. */
  lemma SkippedLoads(ld: Load)
    requires WellFormed(ld)
    requires !ld.tensorPointer || |ld.shape| <= 1
    ensures BlockIO(ld).None?
  {
  }

  /** A fast dimension before the last two gets no attribute. */
  lemma LowFastDimNotAnnotated(ld: Load, f: nat)
    requires WellFormed(ld) && |ld.shape| >= 2
    requires FastChangeDim(ld.strides) == Some(f) && f < |ld.shape| - 2
    ensures BlockIO(ld).None?
  {
  }

  /** `column_major` is only given for the second-to-last dimension, and never to 8-bit elements. */
  lemma ColumnMajorShape(ld: Load)
    requires WellFormed(ld)
    requires BlockIO(ld) == Some(ColumnMajor)
    ensures FastChangeDim(ld.strides) == Some(|ld.shape| - 2)
    ensures ld.elementWidth != 8
    ensures IsDivisible(ld.strides[|ld.shape| - 1], 128 / ld.elementWidth)
  {
  }

  /** An annotated A operand of a dot has a thread order matching the attribute. */
  lemma OperandAOrientation(ld: Load)
    requires WellFormed(ld)
    requires BlockIO(ld).Some?
    requires GetDotLayout(ld).Some? && GetDotLayout(ld).value.opIdx == OperandA
    ensures ValueRowMajor(ld) <==> BlockIO(ld) == Some(RowMajor)
  {
  }

  // ---------------------------------------------------------------------
  // runOnOperation
  // ---------------------------------------------------------------------

  /** A `tt.load` op; its block-IO attribute is the only thing the pass changes. */
  class LoadOp {
    const desc: Load
    var blockIO: Option<Layout>

    constructor (desc: Load)
      ensures this.desc == desc && blockIO.None?
    {
      this.desc := desc;
      blockIO := None;
    }
  }

  /** The scan for the first unit stride, stopping at the first one found; -1 when there is none. */
  method FindFastChangeDim(strides: seq<Operand>) returns (f: int)
    ensures f < 0 <==> FastChangeDim(strides).None?
    ensures f >= 0 ==> FastChangeDim(strides) == Some(f)
    ensures -1 <= f < |strides|
  {
    f := -1;
    var i := 0;
    while i < |strides|
      invariant 0 <= i <= |strides|
      invariant forall j :: 0 <= j < i ==> !strides[j].isConstantOne
    {
      if strides[i].isConstantOne {
        f := i;
        break;
      }
      i := i + 1;
    }
    if f >= 0 {
      FirstUnitStride(strides, f);
    }
  }

  /** A unit stride preceded by none is the fast-changing dimension. */
  lemma {:induction false} FirstUnitStride(strides: seq<Operand>, f: nat)
    requires f < |strides| && strides[f].isConstantOne
    requires forall j :: 0 <= j < f ==> !strides[j].isConstantOne
    ensures FastChangeDim(strides) == Some(f)
  {
    if f > 0 {
      FirstUnitStride(strides[1..], f - 1);
    }
  }

  /** The per-load body of the walk: the checks in the pass's order, each an early exit. */
  method Materialize(op: LoadOp)
    requires WellFormed(op.desc)
    modifies op
    ensures op.blockIO == if BlockIO(op.desc).Some? then BlockIO(op.desc) else old(op.blockIO)
  {
    var ld := op.desc;
    if !ld.tensorPointer {
      return;
    }
    var rank := |ld.shape|;
    if rank == 1 {
      return;
    }
    if !IsDivisible(ld.base, 4) {
      return;
    }
    var f := FindFastChangeDim(ld.strides);
    if f < 0 {
      return;
    }
    if !IsDivisible(ld.shape[f], 32 / ld.elementWidth) {
      return;
    }
    if !IsDivisible(ld.offsets[f], 32 / ld.elementWidth) {
      return;
    }
    if f == rank - 2 && ld.elementWidth == 8 {
      return;
    }
    if f >= rank - 2 {
      if !ld.strides[f].isConstantOne {
        return;
      }
      var pitch := ld.strides[if f == rank - 1 then rank - 2 else rank - 1];
      if !IsDivisible(pitch, 128 / ld.elementWidth) {
        return;
      }
      var isRowMajor := f == rank - 1;
      var dotLayout := GetDotLayout(ld);
      if dotLayout.Some? {
        var valueRowMajor := ld.threadOrder[0] == 1 && ld.threadOrder[1] == 0;
        if dotLayout.value.opIdx == OperandA && valueRowMajor != isRowMajor {
          return;
        }
      }
      op.blockIO := Some(if isRowMajor then RowMajor else ColumnMajor);
    }
  }

  /**
   * `runOnOperation`: without the module's 2D-block support attribute
   * nothing changes; otherwise every load is visited once and annotated
   * when eligible.
   */
  method RunOnOperation(hasBlockSupport: bool, loads: seq<LoadOp>)
    requires forall i :: 0 <= i < |loads| ==> WellFormed(loads[i].desc)
    requires forall i, j :: 0 <= i < j < |loads| ==> loads[i] != loads[j]
    modifies set i | 0 <= i < |loads| :: loads[i]
    ensures !hasBlockSupport ==> forall i :: 0 <= i < |loads| ==> loads[i].blockIO == old(loads[i].blockIO)
    ensures hasBlockSupport ==>
              forall i :: 0 <= i < |loads| ==>
                loads[i].blockIO == if BlockIO(loads[i].desc).Some? then BlockIO(loads[i].desc) else old(loads[i].blockIO)
  {
    if !hasBlockSupport {
      return;
    }
    var k := 0;
    while k < |loads|
      invariant 0 <= k <= |loads|
      invariant forall i :: 0 <= i < k ==>
                  loads[i].blockIO == if BlockIO(loads[i].desc).Some? then BlockIO(loads[i].desc) else old(loads[i].blockIO)
      invariant forall i :: k <= i < |loads| ==> loads[i].blockIO == old(loads[i].blockIO)
    {
      Materialize(loads[k]);
      k := k + 1;
    }
  }
}
