/**
 * The GEMM (tensor of pointers) benchmark: the grouped tile-id swizzle of
 * its two kernels, the launch-grid and shape checks of `matmul`, the
 * operand shapes of `get_shapes`, and the device-memory filter over the
 * benchmark cases.
 */
module Gemm {
  import opened Wrappers

  // ---------------------------------------------------------------------
  // Integer division facts (Python's `//` and `%` agree with Dafny's on
  // the non-negative values used here)
  // ---------------------------------------------------------------------

  /** Quotient and remainder are unique: `q * d + r` with `r < d` divides back to `q` and `r`. */
  lemma DivMod(q: nat, d: nat, r: nat)
    requires r < d
    ensures (q * d + r) / d == q && (q * d + r) % d == r
  {
    var a := q * d + r;
    Euclid(a, d);
    var q' := a / d;
    if q' > q {
      MulLe(q + 1, q', d);
    } else if q' < q {
      MulLe(q' + 1, q, d);
    }
  }

  /** Euclidean division: `x == (x / d) * d + x % d` with `0 <= x % d < d`. */
  lemma Euclid(x: nat, d: nat)
    requires d > 0
    ensures x == (x / d) * d + x % d && x % d < d
  {
  }

  lemma MulLe(a: nat, b: nat, c: nat)
    requires a <= b
    ensures a * c <= b * c
  {
  }

  /** `a * c < b * c` forces `a < b`. */
  lemma MulLtCancel(a: nat, b: nat, c: nat)
    requires a * c < b * c
    ensures a < b
  {
    if a >= b {
      MulLe(b, a, c);
    }
  }

  /** A value below `s * n` has quotient below `n` when divided by `s`. */
  lemma DivBelow(x: nat, s: nat, n: nat)
    requires s > 0 && x < s * n
    ensures x / s < n
  {
    var q := x / s;
    assert q * s + x % s == x;
    if q >= n {
      MulLe(n, q, s);
    }
  }

  // ---------------------------------------------------------------------
  // The grouped tile-id swizzle
  // ---------------------------------------------------------------------

  /** `triton.cdiv`: the least number of blocks of `d` that cover `x`. */
  function CDiv(x: nat, d: nat): (r: nat)
    requires d > 0
    ensures x <= r * d
    ensures r > 0 ==> (r - 1) * d < x
  {
    var r := (x + d - 1) / d;
    DivMod(r, d, (x + d - 1) % d);
    r
  }

  /** The output tile `(pid_m, pid_n)` a program computes. */
  datatype Tile = Tile(pidM: nat, pidN: nat)

  /** The first row-block of the group of program `pid`. */
  function GroupStart(pid: nat, numPidN: nat, groupM: nat): nat
    requires groupM >= 1 && numPidN >= 1
  {
    (pid / (groupM * numPidN)) * groupM
  }

  /** A launched program's group starts inside the grid, and its offset in the group is below the group's size times `numPidN`. */
  lemma GroupBounds(pid: nat, numPidM: nat, numPidN: nat, groupM: nat)
    requires groupM >= 1 && pid < numPidM * numPidN
    ensures numPidN >= 1
    ensures GroupStart(pid, numPidN, groupM) < numPidM
    ensures pid % (groupM * numPidN) < Min(numPidM - GroupStart(pid, numPidN, groupM), groupM) * numPidN
  {
    var inGroup := groupM * numPidN;
    var g := pid / inGroup;
    var first := g * groupM;
    var local := pid % inGroup;
    Euclid(pid, inGroup);
    MulAssoc(g, groupM, numPidN);
    assert first * numPidN + local == pid;
    MulLtCancel(first, numPidM, numPidN);
    MulSub(numPidM, first, numPidN);
    assert local < (numPidM - first) * numPidN;
  }

  lemma MulAssoc(a: nat, b: nat, c: nat)
    ensures a * (b * c) == (a * b) * c
  {
  }

  lemma MulSub(a: nat, b: nat, c: nat)
    requires b <= a
    ensures (a - b) * c == a * c - b * c
  {
  }

  function Min(a: int, b: int): int {
    if a < b then a else b
  }

  /**
   * `matmul_kernel`'s swizzle: programs are handed out in groups of
   * `groupM` row-blocks; within a group they go down the rows first, then
   * across the columns. The last group may have fewer rows.
   */
  function Swizzle(pid: nat, numPidM: nat, numPidN: nat, groupM: nat): (t: Tile)
    requires groupM >= 1 && pid < numPidM * numPidN
    ensures t.pidM < numPidM && t.pidN < numPidN
  {
    GroupBounds(pid, numPidM, numPidN, groupM);
    var inGroup := groupM * numPidN;
    var first := GroupStart(pid, numPidN, groupM);
    var size: nat := Min(numPidM - first, groupM);
    var local := pid % inGroup;
    DivBelow(local, size, numPidN);
    Tile(first + local % size, local / size)
  }

  /** The program that computes tile `t`: the inverse of the swizzle. */
  function Unswizzle(t: Tile, numPidM: nat, numPidN: nat, groupM: nat): nat
    requires groupM >= 1 && t.pidM < numPidM
  {
    var g := t.pidM / groupM;
    var first := g * groupM;
    var size := Min(numPidM - first, groupM);
    g * (groupM * numPidN) + t.pidN * size + (t.pidM - first)
  }

  /** Undoing the swizzle gives back the program id: no two launched programs compute the same tile. */
  lemma UnswizzleSwizzle(pid: nat, numPidM: nat, numPidN: nat, groupM: nat)
    requires groupM >= 1 && pid < numPidM * numPidN
    ensures Unswizzle(Swizzle(pid, numPidM, numPidN, groupM), numPidM, numPidN, groupM) == pid
  {
    GroupBounds(pid, numPidM, numPidN, groupM);
    var inGroup := groupM * numPidN;
    var g := pid / inGroup;
    var first := GroupStart(pid, numPidN, groupM);
    var size: nat := Min(numPidM - first, groupM);
    var local := pid % inGroup;
    var t := Swizzle(pid, numPidM, numPidN, groupM);
    assert t.pidM == first + local % size;
    DivMod(g, groupM, local % size);
    assert t.pidM / groupM == g;
    assert t.pidN * size + local % size == local;
    assert g * inGroup + local == pid;
  }

  /** Within its group, tile `t` sits at offset `pidN * size + (pidM - first)`, below the group's extent. */
  lemma UnswizzleInGroup(t: Tile, numPidM: nat, numPidN: nat, groupM: nat)
    requires groupM >= 1 && t.pidM < numPidM && t.pidN < numPidN
    ensures var first := (t.pidM / groupM) * groupM;
            && first <= t.pidM < first + Min(numPidM - first, groupM)
            && t.pidN * Min(numPidM - first, groupM) + (t.pidM - first) < Min(numPidM - first, groupM) * numPidN
            && Min(numPidM - first, groupM) <= groupM
  {
    var g := t.pidM / groupM;
    var first := g * groupM;
    Euclid(t.pidM, groupM);
    var size: nat := Min(numPidM - first, groupM);
    var r := t.pidM - first;
    assert r < size;
    MulLe(t.pidN + 1, numPidN, size);
    assert (t.pidN + 1) * size == t.pidN * size + size;
  }

  /** The program `Unswizzle(t)` is launched: it is below `numPidM * numPidN`. */
  lemma UnswizzleInGrid(t: Tile, numPidM: nat, numPidN: nat, groupM: nat)
    requires groupM >= 1 && t.pidM < numPidM && t.pidN < numPidN
    ensures Unswizzle(t, numPidM, numPidN, groupM) < numPidM * numPidN
  {
    UnswizzleInGroup(t, numPidM, numPidN, groupM);
    var g := t.pidM / groupM;
    var first := g * groupM;
    var size: nat := Min(numPidM - first, groupM);
    var local := t.pidN * size + (t.pidM - first);
    MulAssoc(g, groupM, numPidN);
    assert Unswizzle(t, numPidM, numPidN, groupM) == first * numPidN + local;
    MulLe(first + size, numPidM, numPidN);
    assert (first + size) * numPidN == first * numPidN + size * numPidN;
  }

  /** Every tile of the grid is computed by the launched program `Unswizzle(t)`. */
  lemma SwizzleUnswizzle(t: Tile, numPidM: nat, numPidN: nat, groupM: nat)
    requires groupM >= 1 && t.pidM < numPidM && t.pidN < numPidN
    ensures Unswizzle(t, numPidM, numPidN, groupM) < numPidM * numPidN
    ensures Swizzle(Unswizzle(t, numPidM, numPidN, groupM), numPidM, numPidN, groupM) == t
  {
    UnswizzleInGroup(t, numPidM, numPidN, groupM);
    UnswizzleInGrid(t, numPidM, numPidN, groupM);
    var inGroup := groupM * numPidN;
    var g := t.pidM / groupM;
    var first := g * groupM;
    var size: nat := Min(numPidM - first, groupM);
    var r := t.pidM - first;
    var local := t.pidN * size + r;
    MulLe(size, groupM, numPidN);
    var pid := Unswizzle(t, numPidM, numPidN, groupM);
    assert pid == g * inGroup + local;
    DivMod(g, inGroup, local);
    assert GroupStart(pid, numPidN, groupM) == first;
    DivMod(t.pidN, size, r);
  }

  /** Distinct launched programs compute distinct tiles. */
  lemma SwizzleInjective(p: nat, q: nat, numPidM: nat, numPidN: nat, groupM: nat)
    requires groupM >= 1 && p < numPidM * numPidN && q < numPidM * numPidN
    requires Swizzle(p, numPidM, numPidN, groupM) == Swizzle(q, numPidM, numPidN, groupM)
    ensures p == q
  {
    UnswizzleSwizzle(p, numPidM, numPidN, groupM);
    UnswizzleSwizzle(q, numPidM, numPidN, groupM);
  }

  // ---------------------------------------------------------------------
  // The kernels' launched programs
  // ---------------------------------------------------------------------

  /** Programs launched along axis 0 for an (M x N) output in (blockM x blockN) tiles. */
  function NumPrograms(M: nat, N: nat, blockM: nat, blockN: nat): nat
    requires blockM > 0 && blockN > 0
  {
    CDiv(M, blockM) * CDiv(N, blockN)
  }

  /** A tile index below `cdiv(x, d)` starts inside the extent `x`. */
  lemma TileStartsInside(i: nat, x: nat, d: nat)
    requires d > 0 && i < CDiv(x, d)
    ensures i * d < x
  {
    MulLe(i, CDiv(x, d) - 1, d);
  }

  /** `matmul_kernel`: the output tile of program `pid`; its first row and column are inside the output. */
  function TileOf(pid: nat, M: nat, N: nat, blockM: nat, blockN: nat, groupM: nat): (t: Tile)
    requires blockM > 0 && blockN > 0 && groupM >= 1
    requires pid < NumPrograms(M, N, blockM, blockN)
    ensures t.pidM < CDiv(M, blockM) && t.pidN < CDiv(N, blockN)
    ensures t.pidM * blockM < M && t.pidN * blockN < N
  {
    var t := Swizzle(pid, CDiv(M, blockM), CDiv(N, blockN), groupM);
    TileStartsInside(t.pidM, M, blockM);
    TileStartsInside(t.pidN, N, blockN);
    t
  }

  /** Every output tile is computed by a launched program of `matmul_kernel`: the one `Unswizzle` names. */
  lemma TileCovered(t: Tile, M: nat, N: nat, blockM: nat, blockN: nat, groupM: nat)
    requires blockM > 0 && blockN > 0 && groupM >= 1
    requires t.pidM < CDiv(M, blockM) && t.pidN < CDiv(N, blockN)
    ensures Unswizzle(t, CDiv(M, blockM), CDiv(N, blockN), groupM) < NumPrograms(M, N, blockM, blockN)
    ensures TileOf(Unswizzle(t, CDiv(M, blockM), CDiv(N, blockN), groupM), M, N, blockM, blockN, groupM) == t
  {
    SwizzleUnswizzle(t, CDiv(M, blockM), CDiv(N, blockN), groupM);
  }

  /** No output tile is computed by two launched programs of `matmul_kernel`. */
  lemma TileOfInjective(p: nat, q: nat, M: nat, N: nat, blockM: nat, blockN: nat, groupM: nat)
    requires blockM > 0 && blockN > 0 && groupM >= 1
    requires p < NumPrograms(M, N, blockM, blockN) && q < NumPrograms(M, N, blockM, blockN)
    requires TileOf(p, M, N, blockM, blockN, groupM) == TileOf(q, M, N, blockM, blockN, groupM)
    ensures p == q
  {
    SwizzleInjective(p, q, CDiv(M, blockM), CDiv(N, blockN), groupM);
  }

  /** `matmul_kernel_batched`: the batch is program id 1, the tile comes from the same swizzle of program id 0. */
  function BatchedTileOf(pid: nat, bid: nat, B: nat, M: nat, N: nat, blockM: nat, blockN: nat, groupM: nat): (r: (nat, Tile))
    requires blockM > 0 && blockN > 0 && groupM >= 1
    requires pid < NumPrograms(M, N, blockM, blockN) && bid < B
    ensures r.0 < B && r.1.pidM * blockM < M && r.1.pidN * blockN < N
  {
    (bid, TileOf(pid, M, N, blockM, blockN, groupM))
  }

  /** Every (batch, tile) pair is computed by a program of the (cdiv * cdiv, B) grid. */
  lemma BatchedTileCovered(b: nat, t: Tile, B: nat, M: nat, N: nat, blockM: nat, blockN: nat, groupM: nat)
    requires blockM > 0 && blockN > 0 && groupM >= 1
    requires b < B && t.pidM < CDiv(M, blockM) && t.pidN < CDiv(N, blockN)
    ensures Unswizzle(t, CDiv(M, blockM), CDiv(N, blockN), groupM) < NumPrograms(M, N, blockM, blockN)
    ensures BatchedTileOf(Unswizzle(t, CDiv(M, blockM), CDiv(N, blockN), groupM), b, B, M, N, blockM, blockN, groupM) == (b, t)
  {
    TileCovered(t, M, N, blockM, blockN, groupM);
  }

  /** No (batch, tile) pair is computed by two programs of the batched grid. */
  lemma BatchedTileOfInjective(p: nat, bp: nat, q: nat, bq: nat, B: nat, M: nat, N: nat, blockM: nat, blockN: nat, groupM: nat)
    requires blockM > 0 && blockN > 0 && groupM >= 1
    requires p < NumPrograms(M, N, blockM, blockN) && q < NumPrograms(M, N, blockM, blockN) && bp < B && bq < B
    requires BatchedTileOf(p, bp, B, M, N, blockM, blockN, groupM) == BatchedTileOf(q, bq, B, M, N, blockM, blockN, groupM)
    ensures p == q && bp == bq
  {
    TileOfInjective(p, q, M, N, blockM, blockN, groupM);
  }

  // ---------------------------------------------------------------------
  // matmul: shape checks and launch grid
  // ---------------------------------------------------------------------

  /** The assertion (or indexing) failures of `matmul`. */
  datatype MatmulError =
    | IndexError              // a shape has fewer than two dimensions
    | IncompatibleDimensions  // the K dimensions differ
    | NotContiguousA
    | NotContiguousB
    | IncompatibleBatch       // two 3-D inputs with different batch sizes
    | DimensionsMismatch      // neither both 2-D nor both 3-D

  /** The kernel `matmul` launches and the sizes it passes. */
  datatype Launch =
    | Plain(M: nat, N: nat, K: nat)
    | Batched(B: nat, M: nat, N: nat, K: nat)

  /** The launch grid for the chosen tile sizes: `(cdiv(M, BM) * cdiv(N, BN),)` or that and `B`. */
  function Grid(l: Launch, blockM: nat, blockN: nat): (g: seq<nat>)
    requires blockM > 0 && blockN > 0
    ensures |g| == if l.Plain? then 1 else 2
    ensures g[0] == NumPrograms(l.M, l.N, blockM, blockN)
    ensures l.Batched? ==> g[1] == l.B
  {
    match l
    case Plain(M, N, _) => [NumPrograms(M, N, blockM, blockN)]
    case Batched(B, M, N, _) => [NumPrograms(M, N, blockM, blockN), B]
  }

  /** Python's `shape[i]` for a negative `i`: counted from the end; an index past the front raises. */
  function At(shape: seq<nat>, i: int): Result<nat, MatmulError>
    requires i < 0
  {
    if -i <= |shape| then Success(shape[|shape| + i]) else Failure(IndexError)
  }

  /**
   * `matmul`: with `a` read as (.., M, K) — (.., K, M) when transposed —
   * and `b` as (.., K, N) — (.., N, K) when transposed, the K dimensions
   * must agree, both inputs be contiguous, and the inputs be both 2-D
   * (one program axis) or both 3-D with the same batch (a second axis).
   */
  function Matmul(a: seq<nat>, b: seq<nat>, transposeA: bool, transposeB: bool, contiguousA: bool, contiguousB: bool)
    : (r: Result<Launch, MatmulError>)
    ensures r.Success? ==> contiguousA && contiguousB
    ensures r.Success? ==>
              || (|a| == 2 && |b| == 2 && r.value.Plain?)
              || (|a| == 3 && |b| == 3 && r.value.Batched? && r.value.B == a[0] == b[0])
    ensures r.Success? ==>
              && r.value.K == a[|a| - (if transposeA then 2 else 1)] == b[|b| - (if transposeB then 1 else 2)]
              && r.value.M == a[|a| - (if transposeA then 1 else 2)]
              && r.value.N == b[|b| - (if transposeB then 2 else 1)]
    ensures |a| < 2 || |b| < 2 ==> r.Failure?
    ensures |a| >= 2 && |b| >= 2 ==>
              (r.Success? <==>
                 && a[|a| - (if transposeA then 2 else 1)] == b[|b| - (if transposeB then 1 else 2)]
                 && contiguousA && contiguousB
                 && ((|a| == 2 && |b| == 2) || (|a| == 3 && |b| == 3 && a[0] == b[0])))
  {
    var (aMajor, aMinor) := if transposeA then (-1, -2) else (-2, -1);
    var (bMajor, bMinor) := if transposeB then (-2, -1) else (-1, -2);
    var kA :- At(a, aMinor);
    var kB :- At(b, bMinor);
    if kA != kB then Failure(IncompatibleDimensions)
    else if !contiguousA then Failure(NotContiguousA)
    else if !contiguousB then Failure(NotContiguousB)
    else
      var m :- At(a, aMajor);
      var n :- At(b, bMajor);
      if |a| == 3 && |b| == 3 then
        if a[0] != b[0] then Failure(IncompatibleBatch) else Success(Batched(a[0], m, n, kA))
      else if |a| == 2 && |b| == 2 then Success(Plain(m, n, kA))
      else Failure(DimensionsMismatch)
  }

  /** `get_shapes`: A is (M, K) or (K, M), B is (K, N) or (N, K), each with the batch in front unless it is 1. */
  function GetShapes(B: nat, M: nat, N: nat, K: nat, transposeA: bool, transposeB: bool): (r: (seq<nat>, seq<nat>))
    ensures |r.0| == |r.1| == if B != 1 then 3 else 2
    ensures B != 1 ==> r.0[0] == B && r.1[0] == B
  {
    var a := if transposeA then [K, M] else [M, K];
    var b := if transposeB then [N, K] else [K, N];
    if B != 1 then ([B] + a, [B] + b) else (a, b)
  }

  /** The shapes `get_shapes` builds pass every check of `matmul` under the same transposes and launch (M, N, K), batched when B is not 1. */
  lemma MatmulOfShapes(B: nat, M: nat, N: nat, K: nat, transposeA: bool, transposeB: bool)
    ensures var (a, b) := GetShapes(B, M, N, K, transposeA, transposeB);
            Matmul(a, b, transposeA, transposeB, true, true) == Success(if B != 1 then Batched(B, M, N, K) else Plain(M, N, K))
  {
  }

  // ---------------------------------------------------------------------
  // The device-memory filter over the benchmark cases
  // ---------------------------------------------------------------------

  /** A benchmark case `(B, M, N, K)`. */
  datatype Case = Case(B: nat, M: nat, N: nat, K: nat)

  /** The cases the benchmark is declared with, before filtering. */
  const XVals: seq<Case> := [
    Case(1, 1024, 1024, 1024), Case(1, 2048, 2048, 2048), Case(1, 4096, 4096, 4096), Case(1, 8192, 8192, 8192),
    Case(1, 1, 13824, 5120), Case(1, 4, 12288, 4096), Case(1, 512, 8192, 8192), Case(1, 512, 8192, 32768),
    Case(1, 512, 32768, 8192), Case(1, 1024, 8192, 16384), Case(1, 1024, 8192, 28672), Case(1, 3072, 3072, 4096),
    Case(1, 4096, 8192, 16384), Case(1, 8192, 1024, 16384), Case(1, 8192, 4096, 16384), Case(1, 16384, 1024, 8192),
    Case(1, 16384, 4096, 8192), Case(1, 16384, 8192, 1024), Case(1, 16384, 8192, 4096), Case(4, 32768, 128, 4096),
    Case(4, 32768, 4096, 128), Case(32, 4096, 128, 4096), Case(4096, 8, 128, 16384), Case(4096, 8, 16384, 128)
  ]

  /** Bytes a case needs: bf16 A (B, M, K) and B (B, N, K), and two fp32 (B, M, N) results. */
  function RequiredMemory(x: Case): nat {
    x.B * x.M * x.K * 2 + x.B * x.N * x.K * 2 + 2 * x.B * x.M * x.N * 4
  }

  /** `is_enough_memory`: the case fits strictly below the device's total memory. */
  predicate IsEnoughMemory(x: Case, total: nat) {
    RequiredMemory(x) < total
  }

  function Volume(a: nat, b: nat, c: nat): nat {
    a * b * c
  }

  lemma RequiredMemoryVolumes(x: Case)
    ensures RequiredMemory(x) == 2 * Volume(x.B, x.M, x.K) + 2 * Volume(x.B, x.N, x.K) + 8 * Volume(x.B, x.M, x.N)
  {
    assert 2 * x.B * x.M * x.N * 4 == (x.B * x.M * x.N) * 8;
  }

  lemma VolumeLe(a: nat, b: nat, c: nat, a': nat, b': nat, c': nat)
    requires a <= a' && b <= b' && c <= c'
    ensures Volume(a, b, c) <= Volume(a', b', c')
  {
    MulLe(a, a', b);
    MulLe(b, b', a');
    MulLe(a * b, a' * b', c);
    MulLe(c, c', a' * b');
  }

  /** A case no larger than a kept case in any dimension is kept too. */
  lemma EnoughMemoryMonotone(x: Case, y: Case, total: nat)
    requires y.B <= x.B && y.M <= x.M && y.N <= x.N && y.K <= x.K
    requires IsEnoughMemory(x, total)
    ensures IsEnoughMemory(y, total)
  {
    RequiredMemoryVolumes(x);
    RequiredMemoryVolumes(y);
    VolumeLe(y.B, y.M, y.K, x.B, x.M, x.K);
    VolumeLe(y.B, y.N, y.K, x.B, x.N, x.K);
    VolumeLe(y.B, y.M, y.N, x.B, x.M, x.N);
  }

  /** The filtering comprehension: the cases that fit, in their original order. */
  function FilterCases(xs: seq<Case>, total: nat): (r: seq<Case>)
    ensures forall x :: x in r <==> x in xs && IsEnoughMemory(x, total)
    ensures |r| <= |xs|
    ensures (forall x :: x in xs ==> IsEnoughMemory(x, total)) ==> r == xs
    ensures |xs| == 1 ==> r == if IsEnoughMemory(xs[0], total) then xs else []
  {
    if |xs| == 0 then []
    else
      var rest := FilterCases(xs[1..], total);
      if IsEnoughMemory(xs[0], total) then
        assert xs == [xs[0]] + xs[1..];
        [xs[0]] + rest
      else rest
  }

  /**
   * Filtering works piecewise, so the kept cases keep their relative order:
   * together with the one-case behaviour this determines the result.
   */
  lemma {:induction false} FilterCasesAppend(xs: seq<Case>, ys: seq<Case>, total: nat)
    ensures FilterCases(xs + ys, total) == FilterCases(xs, total) + FilterCases(ys, total)
    decreases |xs|
  {
    if |xs| == 0 {
      assert xs + ys == ys;
    } else {
      assert (xs + ys)[0] == xs[0];
      assert (xs + ys)[1..] == xs[1..] + ys;
      FilterCasesAppend(xs[1..], ys, total);
    }
  }

  /** The benchmarked cases on a device with `total` bytes: the declared cases that fit, in declaration order. */
  function Benchmarked(total: nat): (r: seq<Case>)
    ensures forall x :: x in r <==> x in XVals && IsEnoughMemory(x, total)
    ensures (forall x :: x in XVals ==> IsEnoughMemory(x, total)) ==> r == XVals
    ensures forall i :: 0 <= i < |XVals| ==>
              FilterCases(XVals[..i], total) + FilterCases(XVals[i..], total) == r
  {
    forall i | 0 <= i < |XVals|
      ensures FilterCases(XVals[..i], total) + FilterCases(XVals[i..], total) == FilterCases(XVals, total)
    {
      assert XVals[..i] + XVals[i..] == XVals;
      FilterCasesAppend(XVals[..i], XVals[i..], total);
    }
    FilterCases(XVals, total)
  }
}
