/**
 * Row-major node indexing of an nx-by-ny grid and its four Dirichlet
 * boundary index lists (boundsA in buildMatrix.py).
 *
 * Node i sits in column i % nx and row i / nx; there are nx * ny nodes.
 */
module Grid {

  /** The four sides of the rectangular domain. */
  datatype Side = West | East | South | North

  /**
   * The index list boundsA produces for side `s`, element by element:
   * west and east have one entry per row, south and north one per column.
   */
  function Bound(s: Side, nx: nat, ny: nat): seq<int>
  {
    match s
    case West => seq(ny, k => k * nx)
    case East => seq(ny, k => (k + 1) * nx - 1)
    case South => seq(nx, k => k)
    case North => seq(nx, k => nx * ny - nx + k)
  }

  /** Node i lies on side s: the `i in w_bound` test of the assembly loops. */
  predicate OnSide(s: Side, i: int, nx: nat, ny: nat)
  {
    i in Bound(s, nx, ny)
  }

  /** The position test that list membership amounts to. */
  predicate OnSideByPosition(s: Side, i: int, nx: nat, ny: nat)
    requires nx > 0
  {
    match s
    case West => i % nx == 0
    case East => i % nx == nx - 1
    case South => i < nx
    case North => i >= nx * ny - nx
  }

  /** The neighbour across side s that an interior stencil term reads. */
  function Neighbor(s: Side, i: int, nx: nat): int
  {
    match s
    case West => i - 1
    case East => i + 1
    case South => i - nx
    case North => i + nx
  }

  /**
   * boundsA: fills four preallocated lists in two loops and returns them
   * in the order west, east, south, north.
   */
  method BoundsA(nx: nat, ny: nat) returns (w: seq<int>, e: seq<int>, s: seq<int>, n: seq<int>)
    ensures |w| == ny && |e| == ny && |s| == nx && |n| == nx
    ensures forall k :: 0 <= k < nx ==> s[k] == k && n[k] == nx * ny - nx + k
    ensures forall k :: 0 <= k < ny ==> w[k] == k * nx && e[k] == (k + 1) * nx - 1
  {
    var dim := nx * ny;
    var wb := new int[ny](_ => 0);
    var eb := new int[ny](_ => 0);
    var sb := new int[nx](_ => 0);
    var nb := new int[nx](_ => 0);
    for i := 0 to nx
      invariant forall k :: 0 <= k < i ==> sb[k] == k && nb[k] == dim - nx + k
    {
      sb[i] := i;
      nb[i] := dim - nx + i;
    }
    s, n := sb[..], nb[..];
    for i := 0 to ny
      invariant forall k :: 0 <= k < i ==> wb[k] == k * nx && eb[k] == (k + 1) * nx - 1
    {
      wb[i] := i * nx;
      eb[i] := (i + 1) * nx - 1;
    }
    w, e := wb[..], eb[..];
  }

  // ---------------------------------------------------------------------
  // Integer division facts for a variable divisor
  // ---------------------------------------------------------------------

  lemma MulAtLeast(d: nat, n: nat)
    requires d >= 1
    ensures d * n >= n
    decreases d
  {
    if d > 1 {
      MulAtLeast(d - 1, n);
      assert d * n == (d - 1) * n + n;
    }
  }

  lemma MulStrictMono(k: int, m: int, n: nat)
    requires k < m && n > 0
    ensures k * n + n <= m * n
  {
    MulAtLeast(m - k, n);
    assert m * n == k * n + (m - k) * n;
  }

  /** q * n + r splits back into quotient q and remainder r. */
  lemma DivModOf(q: int, r: int, n: nat)
    requires n > 0 && 0 <= r < n
    ensures (q * n + r) / n == q && (q * n + r) % n == r
  {
    var a := q * n + r;
    var q', r' := a / n, a % n;
    assert a == q' * n + r';
    if q' < q {
      MulStrictMono(q', q, n);
    } else if q < q' {
      MulStrictMono(q, q', n);
    }
  }

  /** Distinct indices have distinct (row, column) pairs. */
  lemma DivModInjective(j: int, i: int, n: nat)
    requires n > 0 && j != i
    ensures j / n != i / n || j % n != i % n
  {
    assert j == (j / n) * n + j % n;
    assert i == (i / n) * n + i % n;
  }

  /** Moving n indices forward moves one row down and keeps the column. */
  lemma DivModShift(k: int, n: nat)
    requires n > 0
    ensures (k + n) / n == k / n + 1 && (k + n) % n == k % n
  {
    assert k == (k / n) * n + k % n;
    assert k + n == (k / n + 1) * n + k % n;
    DivModOf(k / n + 1, k % n, n);
  }

  /** A node index of the grid has a row below ny. */
  lemma RowInRange(i: int, nx: nat, ny: nat)
    requires 0 <= i < nx * ny
    ensures nx > 0 && ny > 0 && 0 <= i / nx < ny
    ensures i == (i / nx) * nx + i % nx && 0 <= i % nx < nx
  {
    if i / nx >= ny {
      if i / nx > ny { MulStrictMono(ny, i / nx, nx); }
    }
  }

  // ---------------------------------------------------------------------
  // Properties of the boundary lists
  // ---------------------------------------------------------------------

  lemma BoundEntryInRange(s: Side, k: int, nx: nat, ny: nat)
    requires nx > 0 && ny > 0 && 0 <= k < |Bound(s, nx, ny)|
    ensures 0 <= Bound(s, nx, ny)[k] < nx * ny
  {
    match s
    case West => MulStrictMono(k, ny, nx);
    case East => MulStrictMono(k, ny, nx);
    case South => MulStrictMono(0, ny, nx);
    case North => MulStrictMono(0, ny, nx);
  }

  /**
   * Every listed index is a node of the grid; node 0 is the west and
   * south corner, node nx*ny - 1 the east and north corner.
   */
  lemma {:induction false} BoundsInRange(nx: nat, ny: nat)
    requires nx > 0 && ny > 0
    ensures forall s: Side, k :: 0 <= k < |Bound(s, nx, ny)| ==> 0 <= Bound(s, nx, ny)[k] < nx * ny
    ensures OnSide(West, 0, nx, ny) && OnSide(South, 0, nx, ny)
    ensures OnSide(East, nx * ny - 1, nx, ny) && OnSide(North, nx * ny - 1, nx, ny)
  {
    forall s: Side, k | 0 <= k < |Bound(s, nx, ny)|
      ensures 0 <= Bound(s, nx, ny)[k] < nx * ny
    {
      BoundEntryInRange(s, k, nx, ny);
    }
    assert Bound(West, nx, ny)[0] == 0;
    assert Bound(South, nx, ny)[0] == 0;
    assert Bound(East, nx, ny)[ny - 1] == nx * ny - 1;
    assert Bound(North, nx, ny)[nx - 1] == nx * ny - 1;
  }

  lemma WestIff(i: int, nx: nat, ny: nat)
    requires 0 <= i < nx * ny
    ensures nx > 0 && (OnSide(West, i, nx, ny) <==> i % nx == 0)
  {
    RowInRange(i, nx, ny);
    if OnSide(West, i, nx, ny) {
      var k :| 0 <= k < ny && Bound(West, nx, ny)[k] == i;
      DivModOf(k, 0, nx);
    }
    if i % nx == 0 {
      assert Bound(West, nx, ny)[i / nx] == i;
    }
  }

  lemma EastIff(i: int, nx: nat, ny: nat)
    requires 0 <= i < nx * ny
    ensures nx > 0 && (OnSide(East, i, nx, ny) <==> i % nx == nx - 1)
  {
    RowInRange(i, nx, ny);
    if OnSide(East, i, nx, ny) {
      var k :| 0 <= k < ny && Bound(East, nx, ny)[k] == i;
      EastEntryColumn(k, nx);
    }
    if i % nx == nx - 1 {
      var k := i / nx;
      assert (k + 1) * nx - 1 == k * nx + nx - 1;
      assert Bound(East, nx, ny)[k] == i;
    }
  }

  lemma EastEntryColumn(k: int, nx: nat)
    requires nx > 0
    ensures ((k + 1) * nx - 1) % nx == nx - 1
  {
    assert (k + 1) * nx - 1 == k * nx + (nx - 1);
    DivModOf(k, nx - 1, nx);
  }

  lemma SouthIff(i: int, nx: nat, ny: nat)
    requires 0 <= i < nx * ny
    ensures OnSide(South, i, nx, ny) <==> i < nx
  {
    if i < nx {
      assert Bound(South, nx, ny)[i] == i;
    }
  }

  lemma NorthIff(i: int, nx: nat, ny: nat)
    requires 0 <= i < nx * ny
    ensures nx > 0 && (OnSide(North, i, nx, ny) <==> i >= nx * ny - nx)
  {
    RowInRange(i, nx, ny);
    MulStrictMono(0, ny, nx);
    if i >= nx * ny - nx {
      assert Bound(North, nx, ny)[i - (nx * ny - nx)] == i;
    }
  }

  /**
   * For a node of the grid, membership in each boundary list is exactly
   * the position test: first column, last column, first row, last row.
   */
  lemma {:induction false} OnSideIff(s: Side, i: int, nx: nat, ny: nat)
    requires 0 <= i < nx * ny
    ensures nx > 0 && ny > 0
    ensures OnSide(s, i, nx, ny) <==> OnSideByPosition(s, i, nx, ny)
  {
    RowInRange(i, nx, ny);
    match s
    case West => WestIff(i, nx, ny);
    case East => EastIff(i, nx, ny);
    case South => SouthIff(i, nx, ny);
    case North => NorthIff(i, nx, ny);
  }

  /**
   * Guard safety: whenever node i is not on side s, the neighbour index
   * the interior term dereferences is itself a node, so no negative index
   * wraps around and no index runs past the end.
   */
  lemma {:induction false} NeighborInRange(s: Side, i: int, nx: nat, ny: nat)
    requires 0 <= i < nx * ny
    requires !OnSide(s, i, nx, ny)
    ensures 0 <= Neighbor(s, i, nx) < nx * ny
    ensures Neighbor(s, i, nx) != i
  {
    RowInRange(i, nx, ny);
    match s
    case West =>
      WestIff(i, nx, ny);
      assert i != 0;
    case East =>
      EastIff(i, nx, ny);
      EastEntryColumn(ny - 1, nx);
      assert (ny - 1 + 1) * nx - 1 == nx * ny - 1;
    case South => SouthIff(i, nx, ny);
    case North => NorthIff(i, nx, ny);
  }
}
