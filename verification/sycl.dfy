/**
 * The slice of SYCL the launchers use: C integer widths, `sycl::range<3>` /
 * `sycl::nd_range<3>`, the 3-D decomposition of a Triton grid into SYCL
 * work-items, and a `sycl::handler` that collects kernel arguments by slot
 * and one `parallel_for` submission.
 */
module Sycl {

  import opened Wrappers

  const U32_MODULUS: int := 0x1_0000_0000
  const SIZE_T_MODULUS: int := 0x1_0000_0000_0000_0000

  /** C `uint32_t`. */
  type u32 = x: int | 0 <= x < 0x1_0000_0000
  /** C `int` (32-bit). */
  type i32 = x: int | -0x8000_0000 <= x < 0x8000_0000

  predicate IsI32(x: int) { -0x8000_0000 <= x < 0x8000_0000 }

  /** Conversion of an integer value to `uint32_t` (reduction modulo 2^32). */
  function ToU32(x: int): (r: u32)
    ensures 0 <= x < U32_MODULUS ==> r == x
  {
    x % U32_MODULUS
  }

  /** Conversion of an integer value to `size_t` (reduction modulo 2^64). */
  function ToSizeT(x: int): (r: nat)
    ensures r < SIZE_T_MODULUS
    ensures 0 <= x < SIZE_T_MODULUS ==> r == x
  {
    x % SIZE_T_MODULUS
  }

  /** `sycl::range<3>(d0, d1, d2)`; the launchers pass (z, y, x), so x is the fastest dimension. */
  datatype Range3 = Range3(d0: nat, d1: nat, d2: nat)

  /** `sycl::nd_range<3>(global, local)`. */
  datatype NdRange = NdRange(global: Range3, local: Range3)

  /**
   * The work decomposition computed by `gridConfig` in the reproducer and by
   * the generated `sycl_kernel_launch` of the benchmark launcher: grid
   * dimensions are `uint32_t` and warp parameters `int`, so the global X
   * extent is a 32-bit unsigned product widened to `size_t`, and the local X
   * extent an `int` product widened to `size_t`.
   */
  function GridConfig(gridX: u32, gridY: u32, gridZ: u32, numWarps: i32, threadsPerWarp: i32): (r: NdRange)
    requires IsI32(numWarps * threadsPerWarp)
    ensures r.global.d0 == gridZ && r.global.d1 == gridY
    ensures r.local.d0 == 1 && r.local.d1 == 1
    ensures r.global.d2 == (gridX * threadsPerWarp * numWarps) % U32_MODULUS
    ensures 0 <= numWarps * threadsPerWarp ==> r.local.d2 == numWarps * threadsPerWarp
  {
    var x := ToU32(ToU32(gridX * ToU32(threadsPerWarp)) * ToU32(numWarps));
    U32ProductWraps(gridX, threadsPerWarp, numWarps);
    NdRange(Range3(gridZ, gridY, x), Range3(1, 1, ToSizeT(numWarps * threadsPerWarp)))
  }

  /** Reducing factors modulo 2^32 before multiplying does not change the product modulo 2^32. */
  lemma {:induction false} ModMul(a: int, b: int)
    ensures (a % U32_MODULUS) * (b % U32_MODULUS) % U32_MODULUS == a * b % U32_MODULUS
  {
    var m := U32_MODULUS;
    var qa, ra := a / m, a % m;
    var qb, rb := b / m, b % m;
    assert a == qa * m + ra;
    assert b == qb * m + rb;
    calc {
      a * b;
      (qa * m + ra) * (qb * m + rb);
      (qa * qb * m + qa * rb + ra * qb) * m + ra * rb;
    }
    ModAddMultiple(qa * qb * m + qa * rb + ra * qb, ra * rb);
  }

  lemma ModAddMultiple(k: int, x: int)
    ensures (k * U32_MODULUS + x) % U32_MODULUS == x % U32_MODULUS
  {
  }

  /** The chained 32-bit unsigned products equal the mathematical product modulo 2^32. */
  lemma {:induction false} U32ProductWraps(g: u32, t: int, n: int)
    ensures ToU32(ToU32(g * ToU32(t)) * ToU32(n)) == (g * t * n) % U32_MODULUS
  {
    var m := U32_MODULUS;
    ModMul(g, t);
    assert g % m == g;
    ModMul(g * t, n);
  }

  /**
   * When the global X extent does not wrap, it is exactly `gridX` work-groups
   * of the local X extent: the local range divides the global range, as an
   * `nd_range` requires.
   */
  lemma {:induction false} GridConfigNoWrap(gridX: u32, gridY: u32, gridZ: u32, numWarps: i32, threadsPerWarp: i32)
    requires 0 <= numWarps && 0 <= threadsPerWarp
    requires gridX * threadsPerWarp * numWarps < U32_MODULUS
    requires IsI32(numWarps * threadsPerWarp)
    ensures GridConfig(gridX, gridY, gridZ, numWarps, threadsPerWarp).global.d2
            == gridX * GridConfig(gridX, gridY, gridZ, numWarps, threadsPerWarp).local.d2
  {
    var r := GridConfig(gridX, gridY, gridZ, numWarps, threadsPerWarp);
    assert 0 <= gridX * threadsPerWarp;
    assert 0 <= gridX * threadsPerWarp * numWarps;
    assert r.global.d2 == gridX * threadsPerWarp * numWarps;
    assert 0 <= numWarps * threadsPerWarp;
    assert gridX * threadsPerWarp * numWarps == gridX * (numWarps * threadsPerWarp);
  }

  /** The argument slots 0..|vals|-1 bound to `vals`, in order. */
  function BindingsOf<A>(vals: seq<A>): (m: map<nat, A>)
    ensures forall k: nat :: k in m <==> k < |vals|
    ensures forall k: nat :: k < |vals| ==> m[k] == vals[k]
  {
    map k: nat | k < |vals| :: vals[k]
  }

  lemma BindingsOfSnoc<A>(vals: seq<A>, x: A)
    ensures BindingsOf(vals + [x]) == BindingsOf(vals)[|vals| := x]
  {
  }

  /**
   * A `sycl::handler` inside a command-group function: `set_arg` fills
   * kernel argument slots, `parallel_for` records the one launch.
   */
  class Handler<A> {
    var args: map<nat, A>
    var launched: Option<NdRange>

    constructor ()
      ensures args == map[] && launched == None
    {
      args := map[];
      launched := None;
    }

    /** `cgh.set_arg(index, value)`. */
    method SetArg(index: nat, value: A)
      modifies this
      ensures args == old(args)[index := value]
      ensures launched == old(launched)
    {
      args := args[index := value];
    }

    /** `cgh.parallel_for(range, kernel)`. */
    method ParallelFor(range: NdRange)
      modifies this
      ensures launched == Some(range)
      ensures args == old(args)
    {
      launched := Some(range);
    }
  }
}
