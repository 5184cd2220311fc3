/**
 * The slab decomposition and the local linear-index arithmetic that
 * `FourierTransform` exposes to its callers: the (i, j, k) <-> offset
 * mapping over the slab of the dense np0 x np1 x np2 grid that the calling
 * process holds, and the extent accessors.
 *
 * The grid dimensions, the rank `myproc` and the per-process tables
 * `np2_loc` / `np2_first` are fixed at construction; the code that builds
 * them is not part of this model, so what it guarantees is taken as the
 * `Valid` predicate.
 */
module FourierGrid {

  const INT_MIN: int := -0x8000_0000
  const INT_MAX: int := 0x7fff_ffff
  const LONG_MIN: int := -0x8000_0000_0000_0000
  const LONG_MAX: int := 0x7fff_ffff_ffff_ffff

  /** Fits in a C `int` (32 bits). */
  predicate IsInt(x: int) { INT_MIN <= x <= INT_MAX }

  /** Fits in a C `long int` (64 bits). */
  predicate IsLong(x: int) { LONG_MIN <= x <= LONG_MAX }

  /** C's `a / b` for `b > 0`: the quotient truncated toward zero. */
  function CDiv(a: int, b: int): (q: int)
    requires b > 0
    ensures a >= 0 ==> 0 <= q && b * q <= a < b * q + b
    ensures a < 0 ==> q <= 0 && b * q - b < a <= b * q
  {
    if a >= 0 then a / b else -((-a) / b)
  }

  /** C's `a % b` for `b > 0`: takes the sign of `a`. */
  function CMod(a: int, b: int): (r: int)
    requires b > 0
    ensures a == b * CDiv(a, b) + r
    ensures a >= 0 ==> 0 <= r < b
    ensures a < 0 ==> -b < r <= 0
  {
    if a >= 0 then a % b else -((-a) % b)
  }

  /** Sum of a sequence of slab lengths. */
  function Sum(s: seq<int>): int {
    if s == [] then 0 else Sum(s[..|s| - 1]) + s[|s| - 1]
  }

  /** The fields of a `FourierTransform` that the index arithmetic reads. */
  datatype Grid = Grid(np0: int, np1: int, np2: int, myproc: int,
                       np2Loc: seq<int>, np2First: seq<int>)

  /**
   * What construction guarantees: positive int dimensions, one entry per
   * process in each table, non-negative slab lengths, `np2_first` the
   * running sum of `np2_loc` starting at 0, and the slabs covering np2.
   */
  ghost predicate Valid(g: Grid) {
    && 0 < g.np0 <= INT_MAX && 0 < g.np1 <= INT_MAX && 0 < g.np2 <= INT_MAX
    && |g.np2Loc| > 0 && |g.np2First| == |g.np2Loc|
    && 0 <= g.myproc < |g.np2Loc|
    && (forall p :: 0 <= p < |g.np2Loc| ==> 0 <= g.np2Loc[p])
    && (forall p :: 0 <= p <= |g.np2Loc| ==> Sum(g.np2Loc[..p]) == if p < |g.np2Loc| then g.np2First[p] else g.np2)
  }

  /** `np2_loc(iproc)`: the number of planes process `iproc` holds. */
  function Np2LocAt(g: Grid, iproc: int): (r: int)
    requires Valid(g) && 0 <= iproc < |g.np2Loc|
    ensures 0 <= r <= g.np2
    ensures g.np2First[iproc] + r <= g.np2
  {
    SlabWithinGrid(g, iproc);
    g.np2Loc[iproc]
  }

  /** `np2_first(iproc)`: the global index of the first plane of process `iproc`. */
  function Np2FirstAt(g: Grid, iproc: int): (r: int)
    requires Valid(g) && 0 <= iproc < |g.np2Loc|
    ensures 0 <= r <= g.np2
    ensures r == Sum(g.np2Loc[..iproc])
  {
    SlabWithinGrid(g, iproc);
    g.np2First[iproc]
  }

  /** `np2_loc()`: the slab length of the calling process. */
  function Np2Loc(g: Grid): (r: int)
    requires Valid(g)
    ensures r == Np2LocAt(g, g.myproc)
  {
    g.np2Loc[g.myproc]
  }

  /** `np2_first()`: the first plane of the calling process. */
  function Np2First(g: Grid): (r: int)
    requires Valid(g)
    ensures r == Np2FirstAt(g, g.myproc)
  {
    g.np2First[g.myproc]
  }

  /** `np012()`: the number of grid points, computed in `long int`. */
  function Np012(g: Grid): (r: int)
    requires Valid(g) && IsLong(g.np0 * g.np1 * g.np2)
    ensures r == SlabVolumes(g, |g.np2Loc|)
  {
    SumOfVolumes(g, |g.np2Loc|);
    g.np0 * g.np1 * g.np2
  }

  /** Number of grid points held by processes 0 .. n-1. */
  ghost function SlabVolumes(g: Grid, n: nat): int
    requires n <= |g.np2Loc|
  {
    if n == 0 then 0 else SlabVolumes(g, n - 1) + g.np0 * g.np1 * g.np2Loc[n - 1]
  }

  lemma {:induction false} SumOfVolumes(g: Grid, n: nat)
    requires n <= |g.np2Loc|
    ensures SlabVolumes(g, n) == g.np0 * g.np1 * Sum(g.np2Loc[..n])
  {
    if n > 0 {
      SumOfVolumes(g, n - 1);
      assert g.np2Loc[..n][..n - 1] == g.np2Loc[..n - 1];
      assert Sum(g.np2Loc[..n]) == Sum(g.np2Loc[..n - 1]) + g.np2Loc[n - 1];
      MulDistributes(g.np0 * g.np1, Sum(g.np2Loc[..n - 1]), g.np2Loc[n - 1]);
    }
  }

  lemma MulDistributes(a: int, b: int, c: int)
    ensures a * (b + c) == a * b + a * c
  {
  }

  /** `np012loc(iproc)`: the number of grid points of process `iproc`, in `int`. */
  function Np012LocAt(g: Grid, iproc: int): (r: int)
    requires Valid(g) && 0 <= iproc < |g.np2Loc|
    requires IsInt(g.np0 * g.np1 * g.np2Loc[iproc])
    ensures 0 <= r
    ensures Np2LocAt(g, iproc) > 0 ==> r >= g.np0 * g.np1
    ensures Np2LocAt(g, iproc) == 0 ==> r == 0
  {
    var r := g.np0 * g.np1 * g.np2Loc[iproc];
    MulPositive(g.np0 * g.np1, g.np2Loc[iproc]);
    r
  }

  lemma MulPositive(a: int, b: int)
    requires a > 0 && b >= 0
    ensures a * b >= 0
    ensures b > 0 ==> a * b >= a
  {
  }

  /** `np012loc()`: the number of grid points of the calling process. */
  function Np012Loc(g: Grid): (r: int)
    requires Valid(g) && IsInt(g.np0 * g.np1 * Np2Loc(g))
    ensures r == Np012LocAt(g, g.myproc)
  {
    g.np0 * g.np1 * g.np2Loc[g.myproc]
  }

  /**
   * No intermediate of `i + np0 * (j + np1 * k)` overflows `int`: the
   * condition under which the C expression is defined.
   */
  predicate IndexDefined(g: Grid, i: int, j: int, k: int) {
    && IsInt(i) && IsInt(j) && IsInt(k)
    && IsInt(g.np1 * k) && IsInt(j + g.np1 * k)
    && IsInt(g.np0 * (j + g.np1 * k)) && IsInt(i + g.np0 * (j + g.np1 * k))
  }

  /** In range of the local slab: 0 <= i < np0, 0 <= j < np1, 0 <= k < np2_loc(). */
  predicate InSlab(g: Grid, i: int, j: int, k: int)
    requires Valid(g)
  {
    0 <= i < g.np0 && 0 <= j < g.np1 && 0 <= k < Np2Loc(g)
  }

  /** `index(i, j, k)`: the local linear offset of grid point (i, j, k). */
  function Index(g: Grid, i: int, j: int, k: int): (r: int)
    requires Valid(g) && IndexDefined(g, i, j, k)
    ensures InSlab(g, i, j, k) ==> 0 <= r < g.np0 * g.np1 * Np2Loc(g)
  {
    if InSlab(g, i, j, k) then
      IndexBound(g.np0, g.np1, Np2Loc(g), i, j, k);
      i + g.np0 * (j + g.np1 * k)
    else
      i + g.np0 * (j + g.np1 * k)
  }

  lemma IndexBound(n0: int, n1: int, n2: int, i: int, j: int, k: int)
    requires 0 <= i < n0 && 0 <= j < n1 && 0 <= k < n2
    ensures 0 <= j + n1 * k < n1 * n2
    ensures 0 <= i + n0 * (j + n1 * k) < n0 * n1 * n2
  {
    assert n1 * k + j < n1 * k + n1 == n1 * (k + 1) <= n1 * n2;
    var m := j + n1 * k;
    assert 0 <= m <= n1 * n2 - 1;
    assert n0 * m <= n0 * (n1 * n2 - 1) by { MulMonotone(n0, m, n1 * n2 - 1); }
    assert n0 * (n1 * n2 - 1) == n0 * n1 * n2 - n0;
  }

  lemma MulMonotone(a: int, b: int, c: int)
    requires a >= 0 && b <= c
    ensures a * b <= a * c
  {
  }

  /** `i(ind)`: `ind % np0`. */
  function I(g: Grid, ind: int): (r: int)
    requires Valid(g)
    ensures ind >= 0 ==> 0 <= r < g.np0
    ensures ind < 0 ==> -g.np0 < r <= 0
  {
    CMod(ind, g.np0)
  }

  /** `j(ind)`: `(ind / np0) % np1`. */
  function J(g: Grid, ind: int): (r: int)
    requires Valid(g)
    ensures ind >= 0 ==> 0 <= r < g.np1
    ensures ind < 0 ==> -g.np1 < r <= 0
  {
    CMod(CDiv(ind, g.np0), g.np1)
  }

  /** The plane of `ind` counted from the start of the local slab: `(ind / np0) / np1`. */
  function LocalPlane(g: Grid, ind: int): int
    requires Valid(g)
  {
    CDiv(CDiv(ind, g.np0), g.np1)
  }

  /** `k(ind)`: the GLOBAL plane index `(ind / np0) / np1 + np2_first()`. */
  function K(g: Grid, ind: int): (r: int)
    requires Valid(g) && IsInt(LocalPlane(g, ind) + Np2First(g))
    ensures 0 <= ind < g.np0 * g.np1 * Np2Loc(g) ==> Np2First(g) <= r < Np2First(g) + Np2Loc(g)
  {
    if 0 <= ind < g.np0 * g.np1 * Np2Loc(g) then
      PlaneBound(g.np0, g.np1, Np2Loc(g), ind);
      LocalPlane(g, ind) + Np2First(g)
    else
      LocalPlane(g, ind) + Np2First(g)
  }

  lemma PlaneBound(n0: int, n1: int, n2: int, ind: int)
    requires n0 > 0 && n1 > 0 && 0 <= ind < n0 * n1 * n2
    ensures 0 <= CDiv(CDiv(ind, n0), n1) < n2
  {
    var q := CDiv(ind, n0);
    var p := CDiv(q, n1);
    MulMonotone(n0, n1 * p, q);
    assert n0 * n1 * p < n0 * n1 * n2;
    MulCancel(n0 * n1, p, n2);
  }

  lemma MulCancel(a: int, x: int, y: int)
    requires a > 0 && a * x < a * y
    ensures x < y
  {
    if x >= y {
      MulMonotone(a, y, x);
    }
  }

  /** The C quotient/remainder decomposition of a non-negative offset. */
  lemma DecomposeOffset(n0: int, n1: int, ind: int)
    requires n0 > 0 && n1 > 0 && ind >= 0
    ensures var q := CDiv(ind, n0);
            var j, p := CMod(q, n1), CDiv(q, n1);
            && ind == CMod(ind, n0) + n0 * (j + n1 * p)
            && 0 <= n1 * p <= j + n1 * p <= n0 * (j + n1 * p) <= ind
  {
    var q := CDiv(ind, n0);
    var p := CDiv(q, n1);
    var j := CMod(q, n1);
    assert q == n1 * p + j;
    MulPositive(n1, p);
    MulPositive(n0, q);
    MulMonotone(q, 1, n0);
  }

  /**
   * Round trip offset -> (i, j, k) -> offset: every local offset is
   * recovered from its coordinates, with k made slab-relative again.
   */
  lemma OffsetRoundTrip(g: Grid, ind: int)
    requires Valid(g) && IsInt(g.np0 * g.np1 * Np2Loc(g))
    requires 0 <= ind < Np012Loc(g)
    ensures IsInt(LocalPlane(g, ind) + Np2First(g))
    ensures IndexDefined(g, I(g, ind), J(g, ind), K(g, ind) - Np2First(g))
    ensures Index(g, I(g, ind), J(g, ind), K(g, ind) - Np2First(g)) == ind
  {
    PlaneBound(g.np0, g.np1, Np2Loc(g), ind);
    assert 0 <= Np2First(g) + Np2Loc(g) <= g.np2 <= INT_MAX by {
      assert Np2Loc(g) == Np2LocAt(g, g.myproc);
    }
    DecomposeOffset(g.np0, g.np1, ind);
  }

  /**
   * Round trip (i, j, k) -> offset -> (i, j, k): the coordinates of an
   * in-slab point are recovered, k as a global plane.
   */
  lemma CoordinatesRoundTrip(g: Grid, i: int, j: int, k: int)
    requires Valid(g) && IsInt(g.np0 * g.np1 * Np2Loc(g))
    requires InSlab(g, i, j, k)
    ensures IndexDefined(g, i, j, k)
    ensures IsInt(LocalPlane(g, Index(g, i, j, k)) + Np2First(g))
    ensures I(g, Index(g, i, j, k)) == i
    ensures J(g, Index(g, i, j, k)) == j
    ensures K(g, Index(g, i, j, k)) == k + Np2First(g)
  {
    ComposeOffset(g.np0, g.np1, Np2Loc(g), i, j, k);
    assert 0 <= Np2First(g) + Np2Loc(g) <= g.np2 <= INT_MAX by {
      assert Np2Loc(g) == Np2LocAt(g, g.myproc);
    }
  }

  /** The offset of an in-range point, and the C quotients and remainders that recover it. */
  lemma ComposeOffset(n0: int, n1: int, n2: int, i: int, j: int, k: int)
    requires 0 <= i < n0 && 0 <= j < n1 && 0 <= k < n2
    ensures var m := j + n1 * k;
            var ind := i + n0 * m;
            && 0 <= n1 * k <= m <= n0 * m <= ind < n0 * n1 * n2
            && CMod(ind, n0) == i && CDiv(ind, n0) == m
            && CMod(m, n1) == j && CDiv(m, n1) == k
  {
    IndexBound(n0, n1, n2, i, j, k);
    var m := j + n1 * k;
    var ind := i + n0 * m;
    MulPositive(n1, k);
    MulPositive(n0, m);
    MulMonotone(m, 1, n0);
    DivModUnique(ind, n0, m, i);
    DivModUnique(m, n1, k, j);
  }

  /** Quotient and remainder of a non-negative division are unique. */
  lemma DivModUnique(a: int, b: int, q: int, r: int)
    requires b > 0 && 0 <= r < b && q >= 0 && a == r + b * q
    ensures CDiv(a, b) == q && CMod(a, b) == r
  {
    var q' := CDiv(a, b);
    var r' := CMod(a, b);
    assert a == b * q' + r';
    if q' < q {
      MulMonotone(b, q' + 1, q);
      assert false;
    } else if q' > q {
      MulMonotone(b, q + 1, q');
      assert false;
    }
  }

  /** Process `p`'s slab contains global plane `k`. */
  ghost predicate Owns(g: Grid, p: int, k: int)
    requires Valid(g) && 0 <= p < |g.np2Loc|
  {
    g.np2First[p] <= k < g.np2First[p] + g.np2Loc[p]
  }

  lemma SlabWithinGrid(g: Grid, p: int)
    requires Valid(g) && 0 <= p < |g.np2Loc|
    ensures 0 <= g.np2First[p] && g.np2First[p] + g.np2Loc[p] <= g.np2
  {
    FirstMonotone(g, p, p + 1);
    FirstMonotone(g, 0, p);
    FirstMonotone(g, p + 1, |g.np2Loc|);
  }

  /** Sum of the prefix of length p, as the Valid predicate gives it. */
  function Boundary(g: Grid, p: int): int
    requires Valid(g) && 0 <= p <= |g.np2Loc|
  {
    if p < |g.np2Loc| then g.np2First[p] else g.np2
  }

  lemma {:induction false} FirstMonotone(g: Grid, p: int, q: int)
    requires Valid(g) && 0 <= p <= q <= |g.np2Loc|
    ensures Boundary(g, p) <= Boundary(g, q)
    ensures q == p + 1 ==> Boundary(g, q) == Boundary(g, p) + g.np2Loc[p]
    decreases q - p
  {
    if p < q {
      assert Sum(g.np2Loc[..p + 1]) == Boundary(g, p + 1);
      assert Sum(g.np2Loc[..p]) == Boundary(g, p);
      assert g.np2Loc[..p + 1][..p] == g.np2Loc[..p];
      FirstMonotone(g, p + 1, q);
    }
  }

  /** Every plane of the grid belongs to exactly one process. */
  lemma {:induction false} SlabsPartitionGrid(g: Grid, k: int)
    requires Valid(g) && 0 <= k < g.np2
    ensures exists p :: 0 <= p < |g.np2Loc| && Owns(g, p, k)
    ensures forall p, q :: 0 <= p < |g.np2Loc| && 0 <= q < |g.np2Loc| && Owns(g, p, k) && Owns(g, q, k) ==> p == q
  {
    var p := FindOwner(g, k, 0);
    forall p1, q1 | 0 <= p1 < |g.np2Loc| && 0 <= q1 < |g.np2Loc| && Owns(g, p1, k) && Owns(g, q1, k)
      ensures p1 == q1
    {
      if p1 < q1 {
        FirstMonotone(g, p1, p1 + 1);
        FirstMonotone(g, p1 + 1, q1);
      } else if q1 < p1 {
        FirstMonotone(g, q1, q1 + 1);
        FirstMonotone(g, q1 + 1, p1);
      }
    }
  }

  /** The process, from `p` on, whose slab contains `k`. */
  lemma {:induction false} FindOwner(g: Grid, k: int, p: int) returns (o: int)
    requires Valid(g) && 0 <= p < |g.np2Loc| && g.np2First[p] <= k < g.np2
    ensures p <= o < |g.np2Loc| && Owns(g, o, k)
    decreases |g.np2Loc| - p
  {
    FirstMonotone(g, p, p + 1);
    if k < g.np2First[p] + g.np2Loc[p] {
      o := p;
    } else {
      assert p + 1 < |g.np2Loc|;
      o := FindOwner(g, k, p + 1);
    }
  }
}
