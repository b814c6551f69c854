/**
 * Lowering of `tt.dot` to the XMX (DPAS) engine: the engine-type table,
 * the per-thread operand vector types, the chunking of a lowered operand
 * into an (n0 x n1) table of vectors and its flattening back, and the
 * k-outer accumulation loop of `convertDot`.
 *
 * MLIR values are opaque elements of a type parameter `T`; a vector value
 * is the sequence of its elements. The bitcast of a chunk to the operand
 * type leaves its elements as they are, and the DPAS intrinsic is a
 * function parameter.
 */
module Xmx {

  import opened Wrappers

  /** Element types of the dot operands and result. */
  datatype ScalarType = F32 | F16 | BF16 | F64 | Int(width: nat)

  /** The DPAS engine types. */
  datatype EngineType =
    | Fp32Fp32Fp16Fp16
    | Fp32Fp32Bf16Bf16
    | Fp32Fp32Tf32Tf32
    | Fp16Fp16Fp16Fp16
    | NotApplicable

  datatype XmxError =
    | UnsupportedMmaType  // `report_fatal_error`
    | RepMismatch         // `assert(repA[1] == repB[0])`
    | EmptyStruct         // `assert(!elems.empty())`
    | MissingEntry        // `std::map::at` on an absent key
    | NotMmaLayout        // `loadC`'s layout assertion

  // ---------------------------------------------------------------------
  // getMmaType
  // ---------------------------------------------------------------------

  /** `getMmaType`: the engine for `d = a * b + c`, from the element types; a fixed four-row table. */
  function GetMmaType(d: ScalarType, a: ScalarType, b: ScalarType, allowTF32: bool): (r: EngineType)
    ensures r == Fp32Fp32Fp16Fp16 <==> d == F32 && a == F16 && b == F16
    ensures r == Fp32Fp32Bf16Bf16 <==> d == F32 && a == BF16 && b == BF16
    ensures r == Fp32Fp32Tf32Tf32 <==> d == F32 && a == F32 && b == F32 && allowTF32
    ensures r == Fp16Fp16Fp16Fp16 <==> d == F16 && a == F16 && b == F16
    ensures d == Int(32) ==> r == NotApplicable
  {
    if d == F32 then
      if a == F16 && b == F16 then Fp32Fp32Fp16Fp16
      else if a == BF16 && b == BF16 then Fp32Fp32Bf16Bf16
      else if a == F32 && b == F32 && allowTF32 then Fp32Fp32Tf32Tf32
      else NotApplicable
    else if d == Int(32) then NotApplicable
    else if d == F16 then
      if a == F16 && b == F16 then Fp16Fp16Fp16Fp16 else NotApplicable
    else NotApplicable
  }

  // ---------------------------------------------------------------------
  // getMmaOperandsType
  // ---------------------------------------------------------------------

  /** A vector type: element type and length. */
  datatype VecType = Vec(elem: ScalarType, count: nat)

  /** The operand types of the intrinsic, in the order `(d, c, a, b)`. */
  datatype OperandTypes = OperandTypes(d: VecType, c: VecType, a: VecType, b: VecType)

  /** The Intel MMA layout: threads per warp and the shapes of the A, B and C tiles. */
  datatype MmaLayout = MmaLayout(threadsPerWarp: nat, shapeA: seq<nat>, shapeB: seq<nat>, shapeC: seq<nat>)

  /** The product of a shape. */
  function Product(shape: seq<nat>): nat {
    if |shape| == 0 then 1 else Product(shape[..|shape| - 1]) * shape[|shape| - 1]
  }

  /** `product<unsigned>(shape) / threadsPerWarp`, in 32-bit unsigned arithmetic. */
  function ElemsPerThread(shape: seq<nat>, threadsPerWarp: nat): nat
    requires threadsPerWarp > 0
  {
    (Product(shape) % 0x1_0000_0000) / threadsPerWarp
  }

  /**
   * `getMmaOperandsType`: only the two fp16-input engines are supported;
   * C and D are vectors of the result type with one element per C entry a
   * thread holds, and A and B pack two fp16 values per i32.
   */
  function GetMmaOperandsType(mmaType: EngineType, layout: MmaLayout): (r: Result<OperandTypes, XmxError>)
    requires layout.threadsPerWarp > 0
    ensures r.Success? <==> mmaType in {Fp32Fp32Fp16Fp16, Fp16Fp16Fp16Fp16}
    ensures r.Failure? ==> r.error == UnsupportedMmaType
    ensures r.Success? ==> r.value.d == r.value.c
    ensures r.Success? ==> r.value.c == Vec(if mmaType == Fp32Fp32Fp16Fp16 then F32 else F16,
                                            ElemsPerThread(layout.shapeC, layout.threadsPerWarp))
    ensures r.Success? ==> r.value.a.elem == Int(32) && r.value.b.elem == Int(32)
    ensures r.Success? ==> 2 * r.value.a.count <= ElemsPerThread(layout.shapeA, layout.threadsPerWarp) < 2 * r.value.a.count + 2
    ensures r.Success? ==> 2 * r.value.b.count <= ElemsPerThread(layout.shapeB, layout.threadsPerWarp) < 2 * r.value.b.count + 2
  {
    var tpw := layout.threadsPerWarp;
    var numC := ElemsPerThread(layout.shapeC, tpw);
    var numA := ElemsPerThread(layout.shapeA, tpw);
    var numB := ElemsPerThread(layout.shapeB, tpw);
    match mmaType
    case Fp32Fp32Fp16Fp16 =>
      var cTy := Vec(F32, numC);
      Success(OperandTypes(cTy, cTy, Vec(Int(32), numA / 2), Vec(Int(32), numB / 2)))
    case Fp16Fp16Fp16Fp16 =>
      var cTy := Vec(F16, numC);
      Success(OperandTypes(cTy, cTy, Vec(Int(32), numA / 2), Vec(Int(32), numB / 2)))
    case _ => Failure(UnsupportedMmaType)
  }

  // ---------------------------------------------------------------------
  // Chunking an operand into a table, and composing it back
  // ---------------------------------------------------------------------

  /** A value table: entry `(i, j)` is a vector value. */
  type Table<T> = map<(nat, nat), seq<T>>

  /** Elements per table entry: `total / (n0 * n1)`. */
  function ChunkSize(total: nat, n0: nat, n1: nat): nat
    requires n0 > 0 && n1 > 0
  {
    total / (n0 * n1)
  }

  /** `a * c` as `a` runs of `c`; the row-major positions of the table are written with it. */
  function Times(a: nat, c: nat): nat {
    if a == 0 then 0 else Times(a - 1, c) + c
  }

  lemma {:induction false} TimesIsProduct(a: nat, c: nat)
    ensures Times(a, c) == a * c
  {
    if a > 0 {
      TimesIsProduct(a - 1, c);
      assert (a - 1) * c + c == a * c;
    }
  }

  lemma {:induction false} TimesMonotone(a: nat, b: nat, c: nat)
    requires a <= b
    ensures Times(a, c) <= Times(b, c)
  {
    if a < b {
      TimesMonotone(a, b - 1, c);
    }
  }

  /** The row-major position of entry `(i, j)` is within the table. */
  lemma EntryIndex(n0: nat, n1: nat, i: nat, j: nat)
    requires i < n0 && j < n1
    ensures Times(i, n1) + j < n0 * n1
  {
    TimesMonotone(i + 1, n0, n1);
    TimesIsProduct(n0, n1);
  }

  /** `elems` without its first `t` chunks of `c` elements (empty once they run out). */
  function Drop<T>(elems: seq<T>, c: nat, t: nat): seq<T> {
    if t == 0 then elems
    else
      var d := Drop(elems, c, t - 1);
      if c <= |d| then d[c..] else []
  }

  /** Chunk `t` of size `c`: the `c` elements that follow the first `t` chunks, when they exist. */
  function Chunk<T>(elems: seq<T>, c: nat, t: nat): seq<T> {
    var d := Drop(elems, c, t);
    if c <= |d| then d[..c] else []
  }

  /** Dropping `t` chunks drops exactly `t * c` elements, while there are that many. */
  lemma {:induction false} DropLength<T>(elems: seq<T>, c: nat, t: nat)
    requires t * c <= |elems|
    ensures |Drop(elems, c, t)| == |elems| - t * c
  {
    if t > 0 {
      assert (t - 1) * c + c == t * c;
      DropLength(elems, c, t - 1);
    }
  }

  /** Dropping `t` chunks leaves the elements from offset `t * c` on. */
  lemma {:induction false} DropSuffix<T>(elems: seq<T>, c: nat, t: nat, offset: nat)
    requires offset == t * c && offset <= |elems|
    ensures Drop(elems, c, t) == elems[offset..]
  {
    if t > 0 {
      var prev := offset - c;
      assert prev == (t - 1) * c;
      DropSuffix(elems, c, t - 1, prev);
      assert elems[prev..][c..] == elems[offset..];
    }
  }

  /** Chunk `t` is the elements `[t * c, t * c + c)`, whenever they exist. */
  lemma ChunkAt<T>(elems: seq<T>, c: nat, t: nat)
    requires (t + 1) * c <= |elems|
    ensures Chunk(elems, c, t) == elems[t * c..t * c + c]
  {
    assert (t + 1) * c == t * c + c;
    DropSuffix(elems, c, t, t * c);
  }

  /** When `n * c` elements exist, each of the first `n` chunks is complete. */
  lemma ChunksExist<T>(elems: seq<T>, c: nat, n: nat)
    requires n * c <= |elems|
    ensures forall t :: 0 <= t < n ==> c <= |Drop(elems, c, t)|
  {
    forall t | 0 <= t < n
      ensures c <= |Drop(elems, c, t)|
    {
      TimesMonotone(t + 1, n, c);
      TimesIsProduct(t, c);
      TimesIsProduct(n, c);
      assert t * c + c <= n * c;
      DropLength(elems, c, t);
    }
  }

  /**
   * `vals` is `elems` cut into chunks of `c` laid out as an (n0 x n1)
   * table: exactly the entries `(i, j)` with `i < n0` and `j < n1`, entry
   * `(i, j)` holding chunk `i * n1 + j` in order.
   */
  ghost predicate ChunkedBy<T>(vals: Table<T>, elems: seq<T>, n0: nat, n1: nat, c: nat) {
    && (forall p: (nat, nat) :: p in vals ==> p.0 < n0 && p.1 < n1)
    && (forall i: nat, j: nat :: i < n0 && j < n1 ==>
          (i, j) in vals && vals[(i, j)] == Chunk(elems, c, Times(i, n1) + j))
  }

  /** `vals` is `elems` chunked into an (n0 x n1) table with `total / (n0 * n1)` elements per entry. */
  ghost predicate ChunkedFrom<T>(vals: Table<T>, elems: seq<T>, n0: nat, n1: nat)
    requires n0 > 0 && n1 > 0
  {
    ChunkedBy(vals, elems, n0, n1, ChunkSize(|elems|, n0, n1))
  }

  /** Entries `(m, 0) .. (m, k - 1)` of a table, flattened in order. */
  function Row<T>(vals: Table<T>, m: nat, k: nat): seq<T>
    requires forall j :: 0 <= j < k ==> (m, j) in vals
  {
    if k == 0 then [] else Row(vals, m, k - 1) + vals[(m, k - 1)]
  }

  /** Rows `0 .. m - 1` of an `n1`-column table, flattened in row-major order. */
  function Rows<T>(vals: Table<T>, m: nat, n1: nat): seq<T>
    requires forall i, j :: 0 <= i < m && 0 <= j < n1 ==> (i, j) in vals
  {
    if m == 0 then [] else Rows(vals, m - 1, n1) + Row(vals, m - 1, n1)
  }

  /** All entries `(i, j)` with `i < n0` and `j < n1` are present. */
  predicate Complete<T>(vals: Table<T>, n0: nat, n1: nat) {
    forall i, j :: 0 <= i < n0 && 0 <= j < n1 ==> (i, j) in vals
  }

  /**
   * `getValuesFromDotOperandLayoutStruct`: the running `offset` hands
   * consecutive runs of `total / (n0 * n1)` elements to the entries in
   * row-major order; a remainder is left unused.
   */
  method DotOperandTable<T>(elems: seq<T>, n0: nat, n1: nat) returns (vals: Table<T>)
    requires |elems| > 0 && n0 > 0 && n1 > 0
    ensures ChunkedFrom(vals, elems, n0, n1)
  {
    var c := ChunkSize(|elems|, n0, n1);
    ChunksExist(elems, c, n0 * n1);
    var offset: nat := 0;
    ghost var t := 0;
    vals := map[];
    var i := 0;
    while i < n0
      invariant 0 <= i <= n0
      invariant t == Times(i, n1) && offset <= |elems| && elems[offset..] == Drop(elems, c, t)
      invariant forall p: (nat, nat) :: p in vals ==> p.0 < i && p.1 < n1
      invariant forall a: nat, b: nat :: a < i && b < n1 ==>
                  (a, b) in vals && vals[(a, b)] == Chunk(elems, c, Times(a, n1) + b)
    {
      var j := 0;
      while j < n1
        invariant 0 <= j <= n1
        invariant t == Times(i, n1) + j && offset <= |elems| && elems[offset..] == Drop(elems, c, t)
        invariant forall p: (nat, nat) :: p in vals ==> (p.0 < i && p.1 < n1) || (p.0 == i && p.1 < j)
        invariant forall a: nat, b: nat :: (a < i && b < n1) || (a == i && b < j) ==>
                    (a, b) in vals && vals[(a, b)] == Chunk(elems, c, Times(a, n1) + b)
      {
        EntryIndex(n0, n1, i, j);
        assert c <= |Drop(elems, c, t)|;
        var matVal := FillChunk(elems, offset, c);
        assert matVal == Chunk(elems, c, t);
        assert elems[offset + c..] == Drop(elems, c, t + 1);
        offset := offset + c;
        vals := vals[(i, j) := matVal];
        t := t + 1;
        j := j + 1;
      }
      i := i + 1;
    }
  }

  /** `c` insertions from `elems[offset]` on, in order. */
  method FillChunk<T>(elems: seq<T>, offset: nat, c: nat) returns (matVal: seq<T>)
    requires offset + c <= |elems|
    ensures matVal == elems[offset..offset + c]
  {
    matVal := [];
    var k := 0;
    while k < c
      invariant 0 <= k <= c
      invariant matVal == elems[offset..offset + k]
    {
      matVal := matVal + [elems[offset + k]];
      k := k + 1;
    }
  }

  /**
   * `composeValuesToDotOperandLayoutStruct`: every element of entries
   * `(0, 0) .. (n0 - 1, n1 - 1)` in row-major order; a missing entry is an
   * out-of-range lookup and an empty result fails the assertion.
   */
  method Compose<T>(vals: Table<T>, n0: nat, n1: nat) returns (r: Result<seq<T>, XmxError>)
    ensures !Complete(vals, n0, n1) ==> r == Failure(MissingEntry)
    ensures Complete(vals, n0, n1) ==>
              r == if |Rows(vals, n0, n1)| == 0 then Failure(EmptyStruct) else Success(Rows(vals, n0, n1))
  {
    var elems: seq<T> := [];
    var m := 0;
    while m < n0
      invariant 0 <= m <= n0
      invariant Complete(vals, m, n1) && elems == Rows(vals, m, n1)
    {
      var k := 0;
      while k < n1
        invariant 0 <= k <= n1
        invariant forall j :: 0 <= j < k ==> (m, j) in vals
        invariant elems == Rows(vals, m, n1) + Row(vals, m, k)
      {
        if (m, k) !in vals {
          assert !Complete(vals, n0, n1);
          return Failure(MissingEntry);
        }
        var matVal := vals[(m, k)];
        var i := 0;
        ghost var before := elems;
        while i < |matVal|
          invariant 0 <= i <= |matVal|
          invariant elems == before + matVal[..i]
        {
          elems := elems + [matVal[i]];
          i := i + 1;
        }
        assert matVal[..i] == matVal;
        k := k + 1;
      }
      m := m + 1;
    }
    if |elems| == 0 {
      return Failure(EmptyStruct);
    }
    return Success(elems);
  }

  /** Row `m` of a table holds chunks `base ..` in order. */
  ghost predicate RowChunked<T>(vals: Table<T>, elems: seq<T>, m: nat, n1: nat, c: nat, base: nat) {
    forall j :: 0 <= j < n1 ==> (m, j) in vals && vals[(m, j)] == Chunk(elems, c, base + j)
  }

  lemma Assoc<T>(a: seq<T>, b: seq<T>, c: seq<T>)
    ensures a + (b + c) == (a + b) + c
  {
  }

  /** With `t` chunks complete, the elements after `t` chunks are chunk `t` followed by the rest. */
  lemma DropStep<T>(elems: seq<T>, c: nat, t: nat)
    requires c <= |Drop(elems, c, t)|
    ensures Drop(elems, c, t) == Chunk(elems, c, t) + Drop(elems, c, t + 1)
  {
    var d := Drop(elems, c, t);
    assert d == d[..c] + d[c..];
  }

  /** The first `k` entries of a row holding chunks `base ..`, then the chunks after them, are what follows chunk `base`. */
  lemma {:induction false} RowOfChunks<T>(vals: Table<T>, elems: seq<T>, m: nat, n1: nat, c: nat, base: nat, k: nat)
    requires RowChunked(vals, elems, m, n1, c, base) && k <= n1
    requires forall t :: base <= t < base + k ==> c <= |Drop(elems, c, t)|
    ensures Drop(elems, c, base) == Row(vals, m, k) + Drop(elems, c, base + k)
  {
    if k > 0 {
      RowOfChunks(vals, elems, m, n1, c, base, k - 1);
      DropStep(elems, c, base + k - 1);
      var row, chunk, rest := Row(vals, m, k - 1), vals[(m, k - 1)], Drop(elems, c, base + k);
      assert chunk == Chunk(elems, c, base + k - 1);
      assert Drop(elems, c, base) == row + (chunk + rest);
      Assoc(row, chunk, rest);
    }
  }

  /** The first `m` rows of a chunked table, then the chunks after them, are all the elements. */
  lemma {:induction false} RowsOfChunks<T>(vals: Table<T>, elems: seq<T>, n0: nat, n1: nat, c: nat, m: nat)
    requires ChunkedBy(vals, elems, n0, n1, c) && m <= n0
    requires forall t :: 0 <= t < Times(m, n1) ==> c <= |Drop(elems, c, t)|
    ensures Complete(vals, m, n1)
    ensures elems == Rows(vals, m, n1) + Drop(elems, c, Times(m, n1))
  {
    if m > 0 {
      var base := Times(m - 1, n1);
      assert Times(m, n1) == base + n1;
      RowsOfChunks(vals, elems, n0, n1, c, m - 1);
      assert RowChunked(vals, elems, m - 1, n1, c, base);
      RowOfChunks(vals, elems, m - 1, n1, c, base, n1);
      var rows, row, rest := Rows(vals, m - 1, n1), Row(vals, m - 1, n1), Drop(elems, c, Times(m, n1));
      assert elems == rows + (row + rest);
      Assoc(rows, row, rest);
    }
  }

  /**
   * The round trip: composing an unmodified chunk table returns the first
   * `n0 * n1 * c` input elements, `c` being the chunk size.
   */
  lemma ComposeChunks<T>(vals: Table<T>, elems: seq<T>, n0: nat, n1: nat)
    requires n0 > 0 && n1 > 0 && ChunkedFrom(vals, elems, n0, n1)
    ensures Complete(vals, n0, n1)
    ensures n0 * n1 * ChunkSize(|elems|, n0, n1) <= |elems|
    ensures Rows(vals, n0, n1) == elems[..n0 * n1 * ChunkSize(|elems|, n0, n1)]
  {
    var c := ChunkSize(|elems|, n0, n1);
    var n := n0 * n1;
    assert n * c <= |elems|;
    ChunksExist(elems, c, n);
    TimesIsProduct(n0, n1);
    RowsOfChunks(vals, elems, n0, n1, c, n0);
    DropLength(elems, c, n);
    var rows := Rows(vals, n0, n1);
    assert |rows| == n * c;
    assert elems[..|rows|] == rows;
  }

  // ---------------------------------------------------------------------
  // loadC and convertDot
  // ---------------------------------------------------------------------

  /** The layout of the C operand. */
  datatype CLayout = IntelMma | OtherLayout

  /** `loadC`: an operand in the MMA layout passes through unchanged; any other layout fails the assertion. */
  function LoadC<T>(layout: CLayout, lowered: seq<T>): (r: Result<seq<T>, XmxError>)
    ensures r.Success? <==> layout == IntelMma
    ensures r.Success? ==> r.value == lowered
    ensures r.Failure? ==> r.error == NotMmaLayout
  {
    if layout == IntelMma then Success(lowered) else Failure(NotMmaLayout)
  }

  /** The DPAS intrinsic: new accumulator from accumulator, B entry and A entry. */
  type Dpas<!T> = (seq<T>, seq<T>, seq<T>) -> seq<T>

  /** Round `k` of the accumulation: every `fc(m, n)` replaced by `dpas(fc(m, n), hb(n, k), ha(m, k))`. */
  function Round<T>(fc: Table<T>, ha: Table<T>, hb: Table<T>, dpas: Dpas<T>, k: nat): (r: Table<T>)
    requires forall p: (nat, nat) :: p in fc ==> (p.0, k) in ha && (p.1, k) in hb
    ensures r.Keys == fc.Keys
  {
    map p | p in fc :: dpas(fc[p], hb[(p.1, k)], ha[(p.0, k)])
  }

  /** Entry `start` folded through `k` intrinsic calls, in increasing `k`, with `ha(m, k)` and `hb(n, k)`. */
  function EntryAfter<T>(start: seq<T>, ha: Table<T>, hb: Table<T>, dpas: Dpas<T>, m: nat, n: nat, k: nat): seq<T>
    requires Fed(ha, hb, m, n, k)
  {
    if k == 0 then start else dpas(EntryAfter(start, ha, hb, dpas, m, n, k - 1), hb[(n, k - 1)], ha[(m, k - 1)])
  }

  /** Entry `(m, n)` has its A and B entries for rounds `0 .. k - 1`. */
  ghost predicate Fed<T>(ha: Table<T>, hb: Table<T>, m: nat, n: nat, k: nat) {
    forall q: nat :: q < k ==> (m, q) in ha && (n, q) in hb
  }

  /** Every entry of `fc` has its A and B entries for rounds `0 .. k - 1`. */
  ghost predicate Feeds<T>(fc: Table<T>, ha: Table<T>, hb: Table<T>, k: nat) {
    forall p: (nat, nat) :: p in fc ==> Fed(ha, hb, p.0, p.1, k)
  }

  /** Entries fed for `k'` rounds are fed for any fewer. */
  lemma FeedsFewer<T>(fc: Table<T>, ha: Table<T>, hb: Table<T>, k: nat, k': nat)
    requires k <= k' && Feeds(fc, ha, hb, k')
    ensures Feeds(fc, ha, hb, k)
  {
    forall p: (nat, nat) | p in fc
      ensures Fed(ha, hb, p.0, p.1, k)
    {
      assert Fed(ha, hb, p.0, p.1, k');
    }
  }

  /** A table with the keys of one fed for `k + 1` rounds has the A and B entries of round `k`. */
  lemma RoundFed<T>(fc: Table<T>, fc0: Table<T>, ha: Table<T>, hb: Table<T>, k: nat)
    requires fc.Keys == fc0.Keys && Feeds(fc0, ha, hb, k + 1)
    ensures forall p: (nat, nat) :: p in fc ==> (p.0, k) in ha && (p.1, k) in hb
  {
    forall p: (nat, nat) | p in fc
      ensures (p.0, k) in ha && (p.1, k) in hb
    {
      assert p in fc0 && Fed(ha, hb, p.0, p.1, k + 1);
    }
  }

  /** `fc` after rounds `0 .. k - 1`: each entry updated exactly `k` times, in increasing `k`. */
  ghost function Accumulated<T>(fc: Table<T>, ha: Table<T>, hb: Table<T>, dpas: Dpas<T>, k: nat): (r: Table<T>)
    requires Feeds(fc, ha, hb, k)
    ensures r.Keys == fc.Keys
  {
    map p | p in fc :: EntryAfter(fc[p], ha, hb, dpas, p.0, p.1, k)
  }

  /** The k-outer order: `k + 1` rounds are `k` rounds followed by round `k` over the whole table. */
  lemma AccumulatedStep<T>(fc: Table<T>, ha: Table<T>, hb: Table<T>, dpas: Dpas<T>, k: nat)
    requires Feeds(fc, ha, hb, k + 1)
    ensures Feeds(fc, ha, hb, k)
    ensures Accumulated(fc, ha, hb, dpas, k + 1) == Round(Accumulated(fc, ha, hb, dpas, k), ha, hb, dpas, k)
  {
    var prev := Accumulated(fc, ha, hb, dpas, k);
    forall p | p in fc
      ensures Accumulated(fc, ha, hb, dpas, k + 1)[p] == Round(prev, ha, hb, dpas, k)[p]
    {
      assert p in prev;
    }
  }

  /**
   * One round of `convertDot`'s loop nest: for each `m`, each `n`,
   * `fc(m, n)` is overwritten with the intrinsic's result.
   */
  method DpasRound<T>(fc0: Table<T>, ha: Table<T>, hb: Table<T>, dpas: Dpas<T>, k: nat, repM: nat, repN: nat)
    returns (fc: Table<T>)
    requires Spans(fc0, repM, repN)
    requires forall p: (nat, nat) :: p in fc0 ==> (p.0, k) in ha && (p.1, k) in hb
    ensures fc == Round(fc0, ha, hb, dpas, k)
  {
    fc := fc0;
    var m := 0;
    while m < repM
      invariant 0 <= m <= repM
      invariant fc.Keys == fc0.Keys
      invariant forall p: (nat, nat) :: p in fc ==> fc[p] == if p.0 < m then Round(fc0, ha, hb, dpas, k)[p] else fc0[p]
    {
      var n := 0;
      while n < repN
        invariant 0 <= n <= repN
        invariant fc.Keys == fc0.Keys
        invariant forall p: (nat, nat) :: p in fc ==>
                    fc[p] == if p.0 < m || (p.0 == m && p.1 < n) then Round(fc0, ha, hb, dpas, k)[p] else fc0[p]
      {
        fc := fc[(m, n) := dpas(fc[(m, n)], hb[(n, k)], ha[(m, k)])];
        n := n + 1;
      }
      m := m + 1;
    }
  }

  /** The `k`-outer loop nest: rounds `0 .. repK - 1` in order. */
  method Accumulate<T>(fc0: Table<T>, ha: Table<T>, hb: Table<T>, dpas: Dpas<T>, repM: nat, repN: nat, repK: nat)
    returns (fc: Table<T>)
    requires Spans(fc0, repM, repN)
    requires Feeds(fc0, ha, hb, repK)
    ensures fc == Accumulated(fc0, ha, hb, dpas, repK)
  {
    fc := fc0;
    var k := 0;
    while k < repK
      invariant 0 <= k <= repK
      invariant fc == Accumulated(fc0, ha, hb, dpas, k)
    {
      FeedsFewer(fc0, ha, hb, k + 1, repK);
      AccumulatedStep(fc0, ha, hb, dpas, k);
      RoundFed(fc, fc0, ha, hb, k);
      SameSpan(fc, fc0, repM, repN);
      fc := DpasRound(fc, ha, hb, dpas, k, repM, repN);
      k := k + 1;
    }
  }

  /** Every entry `(i, j)` with `i < n0` and `j < n1`, and no other. */
  ghost predicate Spans<T>(vals: Table<T>, n0: nat, n1: nat) {
    forall p: (nat, nat) :: p in vals <==> p.0 < n0 && p.1 < n1
  }

  /** A table with the keys of a spanning table spans the same entries. */
  lemma SameSpan<T>(fc: Table<T>, fc0: Table<T>, n0: nat, n1: nat)
    requires fc.Keys == fc0.Keys && Spans(fc0, n0, n1)
    ensures Spans(fc, n0, n1)
  {
    forall p: (nat, nat)
      ensures p in fc <==> p.0 < n0 && p.1 < n1
    {
      assert p in fc <==> p in fc0;
    }
  }

  /** A chunk table spans exactly its (n0 x n1) entries. */
  lemma ChunkedSpans<T>(vals: Table<T>, elems: seq<T>, n0: nat, n1: nat)
    requires n0 > 0 && n1 > 0 && ChunkedFrom(vals, elems, n0, n1)
    ensures Spans(vals, n0, n1)
  {
    forall p: (nat, nat) | p.0 < n0 && p.1 < n1
      ensures p in vals
    {
      var (i, j) := p;
      assert (i, j) in vals;
    }
  }

  /** Tables spanning (repM x repN), (repM x repK) and (repN x repK) feed every accumulator entry for all `repK` rounds. */
  lemma SpansFeed<T>(fc: Table<T>, ha: Table<T>, hb: Table<T>, repM: nat, repN: nat, repK: nat)
    requires Spans(fc, repM, repN) && Spans(ha, repM, repK) && Spans(hb, repN, repK)
    ensures Feeds(fc, ha, hb, repK)
  {
    forall p: (nat, nat) | p in fc
      ensures Fed(ha, hb, p.0, p.1, repK)
    {
      forall q: nat | q < repK
        ensures (p.0, q) in ha && (p.1, q) in hb
      {
        assert Spans(ha, repM, repK) && (p.0, q).0 < repM && (p.0, q).1 < repK;
      }
    }
  }

  /** The tables `convertDot` builds and the rep counts it reads. */
  datatype DotOperands<T> = DotOperands(
    loadedA: seq<T>, loadedB: seq<T>, loadedC: seq<T>,
    repA: (nat, nat), repB: (nat, nat))

  /** The A, B and C tables are the chunkings of the lowered operands by `(repM, repK)`, `(repN, repK)`, `(repM, repN)`. */
  ghost predicate Tables<T>(ops: DotOperands<T>, ha: Table<T>, hb: Table<T>, fc: Table<T>)
    requires ops.repA.0 > 0 && ops.repA.1 > 0 && ops.repB.1 > 0
  {
    && ChunkedFrom(ha, ops.loadedA, ops.repA.0, ops.repA.1)
    && ChunkedFrom(hb, ops.loadedB, ops.repB.1, ops.repA.1)
    && ChunkedFrom(fc, ops.loadedC, ops.repA.0, ops.repB.1)
  }

  /**
   * `convertDot`: check the reps agree, pick the engine, cut the operands
   * into tables, run the k-outer accumulation and compose the result.
   */
  method ConvertDot<T>(ops: DotOperands<T>, d: ScalarType, a: ScalarType, b: ScalarType, allowTF32: bool,
                       layout: MmaLayout, dpas: Dpas<T>)
    returns (r: Result<seq<T>, XmxError>, ghost ha: Table<T>, ghost hb: Table<T>, ghost fc0: Table<T>)
    requires |ops.loadedA| > 0 && |ops.loadedB| > 0 && |ops.loadedC| > 0
    requires ops.repA.0 > 0 && ops.repA.1 > 0 && ops.repB.1 > 0
    requires layout.threadsPerWarp > 0
    ensures ops.repA.1 != ops.repB.0 ==> r == Failure(RepMismatch)
    ensures ops.repA.1 == ops.repB.0 && GetMmaOperandsType(GetMmaType(d, a, b, allowTF32), layout).Failure? ==>
              r == Failure(UnsupportedMmaType)
    ensures r.Success? ==>
              && ops.repA.1 == ops.repB.0
              && GetMmaType(d, a, b, allowTF32) in {Fp32Fp32Fp16Fp16, Fp16Fp16Fp16Fp16}
              && Tables(ops, ha, hb, fc0)
              && Feeds(fc0, ha, hb, ops.repA.1)
              && Complete(Accumulated(fc0, ha, hb, dpas, ops.repA.1), ops.repA.0, ops.repB.1)
              && r.value == Rows(Accumulated(fc0, ha, hb, dpas, ops.repA.1), ops.repA.0, ops.repB.1)
    ensures ops.repA.1 == ops.repB.0 && GetMmaOperandsType(GetMmaType(d, a, b, allowTF32), layout).Success? ==>
              (r.Success? || r == Failure(EmptyStruct))
    ensures (&& ops.repA.1 == ops.repB.0
             && GetMmaOperandsType(GetMmaType(d, a, b, allowTF32), layout).Success?
             && forall acc: seq<T>, x: seq<T>, y: seq<T> :: |dpas(acc, x, y)| > 0)
            ==> r.Success?
  {
    ha, hb, fc0 := map[], map[], map[];
    if ops.repA.1 != ops.repB.0 {
      return Failure(RepMismatch), ha, hb, fc0;
    }
    var repM, repN, repK := ops.repA.0, ops.repB.1, ops.repA.1;
    var mmaType := GetMmaType(d, a, b, allowTF32);
    var types := GetMmaOperandsType(mmaType, layout);
    if types.Failure? {
      return Failure(types.error), ha, hb, fc0;
    }
    var tableA := DotOperandTable(ops.loadedA, repM, repK);
    var tableB := DotOperandTable(ops.loadedB, repN, repK);
    var fc := DotOperandTable(ops.loadedC, repM, repN);
    ha, hb, fc0 := tableA, tableB, fc;
    ChunkedSpans(tableA, ops.loadedA, repM, repK);
    ChunkedSpans(tableB, ops.loadedB, repN, repK);
    ChunkedSpans(fc, ops.loadedC, repM, repN);
    SpansFeed(fc, tableA, tableB, repM, repN, repK);
    ghost var start := fc;
    fc := Accumulate(fc, tableA, tableB, dpas, repM, repN, repK);
    r := Compose(fc, repM, repN);
    if forall acc: seq<T>, x: seq<T>, y: seq<T> :: |dpas(acc, x, y)| > 0 {
      AccumulatedNonEmpty(start, tableA, tableB, dpas, repM, repN, repK);
    }
  }

  /**
   * After at least one round with an intrinsic that always yields a
   * non-empty vector, as DPAS does, the composed accumulator is not empty.
   */
  lemma AccumulatedNonEmpty<T>(fc: Table<T>, ha: Table<T>, hb: Table<T>, dpas: Dpas<T>, repM: nat, repN: nat, repK: nat)
    requires repM > 0 && repN > 0 && repK > 0
    requires forall acc: seq<T>, x: seq<T>, y: seq<T> :: |dpas(acc, x, y)| > 0
    requires Spans(fc, repM, repN) && Feeds(fc, ha, hb, repK)
    ensures Complete(Accumulated(fc, ha, hb, dpas, repK), repM, repN)
    ensures |Rows(Accumulated(fc, ha, hb, dpas, repK), repM, repN)| > 0
  {
    var acc := Accumulated(fc, ha, hb, dpas, repK);
    var last := (repM - 1, repN - 1);
    assert last in fc;
    assert Complete(acc, repM, repN) by {
      forall i, j | 0 <= i < repM && 0 <= j < repN ensures (i, j) in acc {
        assert (i, j) in fc;
      }
    }
    assert acc[last] == EntryAfter(fc[last], ha, hb, dpas, repM - 1, repN - 1, repK);
    assert |acc[last]| > 0;
    assert |Row(acc, repM - 1, repN)| > 0;
  }
}
