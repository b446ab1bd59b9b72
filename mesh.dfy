/**
 * The two array utilities of buildMatrix.py: cell-centre coordinates in
 * node order (meshposition) and the reshape of a node-ordered list into
 * rows (List2Matrix).
 */
module Mesh {
  import opened Grid

  /** The IndexErrors the two utilities can raise. */
  datatype IndexError =
    | XCentresEmpty      // x_pos_temp[0] on an empty list: x_nodes == 0
    | YCentresEmpty      // y_pos_temp[0] on an empty list: y_nodes == 0
    | ScratchRowMissing  // Ans[i] = ... for a row index past the scratch list
    | CellMissing        // X[i] or Ans[row][col] past the end of its list

  datatype Result<T> = Ok(value: T) | Err(error: IndexError)

  /** Centre of the j-th cell of width d along one axis. */
  function Centre(j: int, d: real): real
  {
    d / 2.0 + (j as real) * d
  }

  /**
   * meshposition: the cell centres along each axis, built by repeated
   * addition of the cell width, then spread over all nodes the way
   * np.meshgrid (default 'xy' indexing) followed by flatten does: node k
   * takes column k % nx and row k / nx.
   */
  method Meshposition(nx: nat, ny: nat, dx: real, dy: real) returns (r: Result<(seq<real>, seq<real>)>)
    ensures r.Err? <==> nx == 0 || ny == 0
    ensures nx == 0 ==> r == Err(XCentresEmpty)
    ensures nx > 0 && ny == 0 ==> r == Err(YCentresEmpty)
    ensures r.Ok? ==> nx > 0 && |r.value.0| == nx * ny && |r.value.1| == nx * ny
    ensures r.Ok? ==> forall k :: 0 <= k < |r.value.0| ==>
              r.value.0[k] == Centre(k % nx, dx) && r.value.1[k] == Centre(k / nx, dy)
  {
    var yTemp := new real[ny](_ => 0.0);
    var xTemp := new real[nx](_ => 0.0);
    if nx == 0 {
      return Err(XCentresEmpty);
    }
    xTemp[0] := dx / 2.0;
    if ny == 0 {
      return Err(YCentresEmpty);
    }
    yTemp[0] := dy / 2.0;
    for i := 0 to nx - 1
      modifies xTemp
      invariant forall j :: 0 <= j <= i ==> xTemp[j] == Centre(j, dx)
    {
      CentreStep(i, dx);
      xTemp[i + 1] := xTemp[i] + dx;
    }
    for i := 0 to ny - 1
      modifies yTemp
      invariant forall j :: 0 <= j <= i ==> yTemp[j] == Centre(j, dy)
    {
      CentreStep(i, dy);
      yTemp[i + 1] := yTemp[i] + dy;
    }
    var xs, ys := xTemp[..], yTemp[..];
    var dim := nx * ny;
    var xPos := seq(dim, k requires 0 <= k < dim => xs[k % nx]);
    var yPos := seq(dim, k requires 0 <= k < dim => RowInRange(k, nx, ny); ys[k / nx]);
    forall k | 0 <= k < dim
      ensures xPos[k] == Centre(k % nx, dx) && yPos[k] == Centre(k / nx, dy)
    {
      RowInRange(k, nx, ny);
    }
    r := Ok((xPos, yPos));
  }

  /** One more cell along an axis is one cell width further. */
  lemma CentreStep(j: int, d: real)
    ensures Centre(j + 1, d) == Centre(j, d) + d
  {
    assert ((j + 1) as real) * d == (j as real) * d + d;
  }

  /**
   * Node order agrees with the boundary lists: west and east nodes sit in
   * the first and last column of centres, south and north nodes in the
   * first and last row.
   */
  lemma {:induction false} BoundaryCentres(k: int, nx: nat, ny: nat, dx: real, dy: real)
    requires nx > 0 && 0 <= k < nx * ny
    ensures OnSide(West, k, nx, ny) ==> Centre(k % nx, dx) == dx / 2.0
    ensures OnSide(East, k, nx, ny) ==> Centre(k % nx, dx) == Centre(nx - 1, dx)
    ensures OnSide(South, k, nx, ny) ==> Centre(k / nx, dy) == dy / 2.0
    ensures OnSide(North, k, nx, ny) ==> Centre(k / nx, dy) == Centre(ny - 1, dy)
  {
    OnSideIff(West, k, nx, ny);
    OnSideIff(East, k, nx, ny);
    OnSideIff(South, k, nx, ny);
    OnSideIff(North, k, nx, ny);
    RowInRange(k, nx, ny);
    if OnSide(South, k, nx, ny) {
      DivModOf(0, k, nx);
    }
    if OnSide(North, k, nx, ny) {
      assert k == (ny - 1) * nx + (k - (ny - 1) * nx);
      DivModOf(ny - 1, k - (ny - 1) * nx, nx);
    }
  }

  /**
   * The east neighbour k + 1 that the assembly uses for a node off the
   * east side is the next cell in the same row, one cell width further.
   */
  lemma {:induction false} EastNeighbourCentre(k: int, nx: nat, ny: nat, dx: real)
    requires nx > 0 && 0 <= k < nx * ny && !OnSide(East, k, nx, ny)
    ensures (k + 1) / nx == k / nx
    ensures Centre((k + 1) % nx, dx) == Centre(k % nx, dx) + dx
  {
    OnSideIff(East, k, nx, ny);
    RowInRange(k, nx, ny);
    assert k + 1 == (k / nx) * nx + (k % nx + 1);
    DivModOf(k / nx, k % nx + 1, nx);
    CentreStep(k % nx, dx);
  }

  /**
   * The north neighbour k + nx that the assembly uses for a node off the
   * north side is the cell above in the same column, one cell height further.
   */
  lemma {:induction false} NorthNeighbourCentre(k: int, nx: nat, dy: real)
    requires nx > 0 && 0 <= k
    ensures (k + nx) % nx == k % nx
    ensures Centre((k + nx) / nx, dy) == Centre(k / nx, dy) + dy
  {
    DivModShift(k, nx);
    CentreStep(k / nx, dy);
  }

  // ---------------------------------------------------------------------
  // List2Matrix
  // ---------------------------------------------------------------------

  /**
   * An entry of the scratch list: the integer 0 it was created with, or a
   * row (itself a list) that replaced it.
   */
  datatype Slot = Placeholder | Row(cells: seq<real>)

  /** `rows` is m rows of w cells each. */
  predicate IsGrid(rows: seq<Slot>, m: nat, w: nat)
  {
    |rows| == m && forall r :: 0 <= r < m ==> rows[r].Row? && |rows[r].cells| == w
  }

  /** Concatenation of the rows, the inverse of the reshape. */
  function Flatten(rows: seq<Slot>): seq<real>
    requires forall r :: 0 <= r < |rows| ==> rows[r].Row?
  {
    if rows == [] then [] else rows[0].cells + Flatten(rows[1..])
  }

  /** Cell (k / w, k % w) of `rows` exists and holds v. */
  predicate StoresAt(rows: seq<Slot>, w: nat, k: int, v: real)
  {
    w > 0 && 0 <= k && 0 <= k / w < |rows| && rows[k / w].Row?
    && 0 <= k % w < |rows[k / w].cells| && rows[k / w].cells[k % w] == v
  }

  /** `rows` holds X[k] at (k / w, k % w) for each of the first m * w indices. */
  predicate Reshapes(rows: seq<Slot>, X: seq<real>, m: nat, w: nat)
  {
    |X| >= m * w && forall k :: 0 <= k < m * w ==> StoresAt(rows, w, k, X[k])
  }

  /** Writing one cell keeps every other cell. */
  lemma StoreKeeps(rows: seq<Slot>, w: nat, row: int, col: int, v: real, j: int, x: real)
    requires 0 <= row < |rows| && rows[row].Row? && 0 <= col < |rows[row].cells|
    requires StoresAt(rows, w, j, x) && (j / w != row || j % w != col)
    ensures StoresAt(rows[row := Row(rows[row].cells[col := v])], w, j, x)
  {
  }

  lemma FirstRowAt(rows: seq<Slot>, w: nat, k: int)
    requires w > 0 && 0 <= k < w && |rows| > 0
    requires forall r :: 0 <= r < |rows| ==> rows[r].Row?
    requires |rows[0].cells| == w
    ensures k < |Flatten(rows)| && StoresAt(rows, w, k, Flatten(rows)[k])
  {
    DivModOf(0, k, w);
  }

  lemma NextRowAt(rows: seq<Slot>, w: nat, k: int)
    requires w > 0 && w <= k && |rows| > 0
    requires forall r :: 0 <= r < |rows| ==> rows[r].Row?
    requires |rows[0].cells| == w
    requires k - w < |Flatten(rows[1..])| && StoresAt(rows[1..], w, k - w, Flatten(rows[1..])[k - w])
    ensures k < |Flatten(rows)| && StoresAt(rows, w, k, Flatten(rows)[k])
  {
    DivModShift(k - w, w);
    assert k - w + w == k;
  }

  /** Flattening m rows of w cells puts cell (k / w, k % w) at position k. */
  lemma {:induction false} FlattenAt(rows: seq<Slot>, m: nat, w: nat)
    requires w > 0 && IsGrid(rows, m, w)
    ensures |Flatten(rows)| == m * w
    ensures forall k :: 0 <= k < m * w ==> StoresAt(rows, w, k, Flatten(rows)[k])
  {
    if m > 0 {
      var rest := rows[1..];
      FlattenAt(rest, m - 1, w);
      assert m * w == w + (m - 1) * w;
      forall k | 0 <= k < m * w
        ensures StoresAt(rows, w, k, Flatten(rows)[k])
      {
        if k < w {
          FirstRowAt(rows, w, k);
        } else {
          NextRowAt(rows, w, k);
        }
      }
    }
  }

  /** A reshape of X's first m * w values flattens back to exactly those values. */
  lemma {:induction false} FlattenInverts(rows: seq<Slot>, X: seq<real>, m: nat, w: nat)
    requires w > 0 && IsGrid(rows, m, w) && Reshapes(rows, X, m, w)
    ensures Flatten(rows) == X[..m * w]
  {
    FlattenAt(rows, m, w);
  }

  /**
   * The store loop of List2Matrix: X[i] goes to row i / x_nodes, column
   * i % x_nodes of the scratch list for every i below x_nodes * y_nodes.
   * It stops at the first i for which X has no value or the row has no such
   * column, the two IndexErrors the loop can raise. Only the first y_nodes
   * rows are ever touched.
   */
  method StoreCells(ans: array<Slot>, X: seq<real>, nx: nat, ny: nat, width: nat) returns (ok: bool)
    requires ny <= ans.Length
    requires forall q :: 0 <= q < ny ==> ans[q].Row? && |ans[q].cells| == width
    modifies ans
    ensures ok <==> nx * ny == 0 || (|X| >= nx * ny && nx <= width)
    ensures forall q :: 0 <= q < ny ==> ans[q].Row? && |ans[q].cells| == width
    ensures forall q :: ny <= q < ans.Length ==> ans[q] == old(ans[q])
    ensures ok ==> Reshapes(ans[..], X, ny, nx)
  {
    var dim := nx * ny;
    for i := 0 to dim
      invariant i <= |X|
      invariant forall q :: 0 <= q < ny ==> ans[q].Row? && |ans[q].cells| == width
      invariant forall q :: ny <= q < ans.Length ==> ans[q] == old(ans[q])
      invariant forall j :: 0 <= j < i ==> j % nx < width
      invariant forall j :: 0 <= j < i ==> StoresAt(ans[..], nx, j, X[j])
    {
      RowInRange(i, nx, ny);
      var row, col := i / nx, i % nx;
      if i >= |X| || col >= |ans[row].cells| {
        return false;
      }
      ghost var before := ans[..];
      ans[row] := Row(ans[row].cells[col := X[i]]);
      assert ans[..] == before[row := Row(before[row].cells[col := X[i]])];
      forall j | 0 <= j < i
        ensures StoresAt(ans[..], nx, j, X[j])
      {
        DivModInjective(j, i, nx);
        StoreKeeps(before, nx, row, col, X[i], j, X[j]);
      }
    }
    if dim > 0 {
      MulStrictMono(0, ny, nx);
      assert (nx - 1) % nx == nx - 1 by { DivModOf(0, nx - 1, nx); }
    }
    assert ny * nx == dim;
    ok := true;
  }

  /**
   * List2Matrix as written: x_nodes scratch rows are created, the first
   * y_nodes of them replaced by rows of y_nodes zeros, and X[i] stored at
   * divmod(i, x_nodes). Only square grids (or an empty X range) get through.
   */
  method List2Matrix(X: seq<real>, nx: nat, ny: nat) returns (r: Result<seq<Slot>>)
    ensures ny > nx ==> r == Err(ScratchRowMissing)
    ensures ny <= nx && nx * ny > 0 && (nx != ny || |X| < nx * ny) ==> r == Err(CellMissing)
    ensures ny == 0 ==> r == Ok(seq(nx, _ => Placeholder))
    ensures nx == ny && |X| >= nx * ny ==> r.Ok? && IsGrid(r.value, nx, nx)
    ensures nx == ny > 0 && |X| >= nx * ny ==>
              r.Ok? && Reshapes(r.value, X, nx, nx) && Flatten(r.value) == X[..nx * ny]
  {
    var ans := new Slot[nx](_ => Placeholder);
    for i := 0 to ny
      invariant i <= nx
      invariant forall q :: 0 <= q < i ==> ans[q] == Row(seq(ny, _ => 0.0))
      invariant forall q :: i <= q < nx ==> ans[q] == Placeholder
    {
      if i >= nx {
        return Err(ScratchRowMissing);
      }
      ans[i] := Row(seq(ny, _ => 0.0));
    }
    var ok := StoreCells(ans, X, nx, ny, ny);
    if !ok {
      return Err(CellMissing);
    }
    r := Ok(ans[..]);
    if ny == 0 {
      assert ans[..] == seq(nx, _ => Placeholder);
    }
    if nx == ny > 0 && |X| >= nx * ny {
      FlattenInverts(ans[..], X, nx, nx);
    }
  }

  /**
   * List2Matrix with the scratch list sized as the store loop indexes it:
   * y_nodes rows of x_nodes cells. Every grid shape works; only a short X
   * fails.
   */
  method List2MatrixCorrected(X: seq<real>, nx: nat, ny: nat) returns (r: Result<seq<Slot>>)
    ensures r.Err? <==> |X| < nx * ny
    ensures r.Err? ==> r.error == CellMissing
    ensures r.Ok? ==> IsGrid(r.value, ny, nx)
    ensures r.Ok? && nx > 0 ==> Reshapes(r.value, X, ny, nx) && Flatten(r.value) == X[..nx * ny]
  {
    var ans := new Slot[ny](_ => Placeholder);
    for i := 0 to ny
      invariant forall q :: 0 <= q < i ==> ans[q] == Row(seq(nx, _ => 0.0))
    {
      ans[i] := Row(seq(nx, _ => 0.0));
    }
    var ok := StoreCells(ans, X, nx, ny, nx);
    if !ok {
      return Err(CellMissing);
    }
    r := Ok(ans[..]);
    if nx > 0 {
      FlattenInverts(ans[..], X, ny, nx);
    }
  }
}
