# buildMatrix: finite-volume advection–diffusion assembly

This project models the matrix-assembly core of `buildMatrix.py`. The file
discretises steady 2-D advection–diffusion on a rectangular grid of
`x_nodes` by `y_nodes` cells, with Dirichlet values on the four sides. The
grid is numbered row-major: node `i` lies in column `i % x_nodes` and row
`i / x_nodes`, and there are `dim = x_nodes * y_nodes` nodes.

- `grid.dfy` (module `Grid`) covers `boundsA`. It builds the west, east,
  south and north boundary index lists. The module proves that membership
  in each list is exactly the first-column, last-column, first-row or
  last-row test. It also proves that every neighbour index an interior term
  reads exists, so none of Python's negative or overflowing indices is ever
  taken.
- `assembly.dfy` (module `Assembly`) covers `CDiff` (central differencing)
  and `UDiff` (upwind differencing).
  - Both run one loop over the nodes, with four "not on this side" stencil
    tests and four "on this side" boundary tests per node.
  - `Assemble` is that loop, written imperatively over an `array2` and an
    `array`. It is proved to produce, entry by entry, the specification
    functions `Entry` and `Source`.
  - Lemmas about those functions state the stencil shape, the row sums,
    the sign pattern of upwinding, the agreement of the schemes at zero
    flux, and a discrepancy in `UDiff`'s north right-hand side (see
    Findings).
- `mesh.dfy` (module `Mesh`) covers two utilities.
  - `meshposition` gives cell-centre coordinates in node order.
  - `List2Matrix` reshapes a node-ordered list into rows.
  - Python's `IndexError`s are modelled as `Err` results.

Real numbers are exact reals. Node counts are naturals.

## Model

| member | source | states |
|---|---|---|
| Grid.BoundsA | buildMatrix.py:11-33 | returns west, east, south, north lists: south[k] = k and north[k] = dim - x_nodes + k for k < x_nodes; west[k] = k·x_nodes and east[k] = (k+1)·x_nodes - 1 for k < y_nodes |
| Grid.BoundsInRange | buildMatrix.py:22-27 | every listed index is a node in [0, dim); node 0 is west and south, node dim-1 is east and north |
| Grid.OnSideIff | buildMatrix.py:22-27 | for a node, `i in w_bound` iff i % x_nodes == 0, `in e_bound` iff i % x_nodes == x_nodes-1, `in s_bound` iff i < x_nodes, `in n_bound` iff i >= dim - x_nodes |
| Grid.NeighborInRange | buildMatrix.py:103-114 | when node i is not on a side, the neighbour index that side's interior term reads (i-1, i+1, i-x_nodes, i+x_nodes) is a node other than i |
| Assembly.InteriorCoeff | buildMatrix.py:104-113 | the face weight of an interior term, read at the neighbour: D + Inflow/2 for CDiff (lines 104-113), D + max(Inflow, 0) for UDiff (lines 207-216), where Inflow is the neighbour's flux signed positive into the node; the neighbour index is in range |
| Assembly.BoundaryCoeff | buildMatrix.py:116-131 | the diagonal increment −sp of a boundary term, read at the node: 2D + Inflow for CDiff (lines 116-131), 2D + max(Inflow, 0) for UDiff (lines 219-234) |
| Assembly.BoundarySource | buildMatrix.py:117-132 | the B increment su: the diagonal increment times the side's Dirichlet value, except UDiff's north term (line 235), which exceeds it by 2(D_x − D_y)·phi_N |
| Assembly.AddInterior | buildMatrix.py:103-114 | one interior test: row i gains -coefficient at the neighbour and +coefficient on the diagonal; no other row changes |
| Assembly.AddBoundary | buildMatrix.py:115-134 | one boundary test: a[i][i] -= sp and B[i] += su when i is on the side; nothing else changes |
| Assembly.AssembleNode | buildMatrix.py:101-134 | the eight tests for node i add Entry(i, c) to row i and Source(i) to B[i]; other rows unchanged |
| Assembly.Assemble | buildMatrix.py:93-135 | new dim×dim matrix and new dim-vector of zeros, filled node by node, end equal to Entry and Source everywhere |
| Assembly.CDiff | buildMatrix.py:36-135 | central differencing into new arrays: a[i][c] = Entry(Central, …), B[i] = Source(Central, …), faces weighted D ± F/2 at the neighbour, boundaries 2D ± F at the node |
| Assembly.UDiff | buildMatrix.py:139-238 | upwind differencing as written, into new arrays: faces D + max(±F, 0), boundaries 2D + max(±F, 0), including the north source of line 235 |
| Assembly.UDiffCorrected | buildMatrix.py:233-237 | UDiff with the north source term scaled by D_y like its diagonal term |
| Assembly.EntryOutsideStencil | buildMatrix.py:101-134 | a column that is neither the diagonal nor an existing neighbour of node i stays 0 |
| Assembly.EntryAtNeighbor | buildMatrix.py:103-114 | the entry at an existing neighbour is exactly minus that face's coefficient |
| Assembly.DiagonalEntry | buildMatrix.py:101-134 | a[i][i] is the sum over the four sides of the interior coefficient (neighbour exists) or the boundary coefficient (node on that side) |
| Assembly.RowSumPrefix | buildMatrix.py:101-134 | the sum of the first n entries of row i is the boundary diagonal plus each interior term's contributions below column n |
| Assembly.RowSumIsBoundaryDiagonal | buildMatrix.py:101-134 | row i sums to what the boundary tests put on the diagonal, for any flux field: interior terms cancel |
| Assembly.InteriorNodeBalanced | buildMatrix.py:101-134 | a node on no side has row sum 0 and B[i] = 0 |
| Assembly.UpwindSigns | buildMatrix.py:206-237 | under upwinding the neighbour entry is ≤ -D of that face and each boundary coefficient is ≥ 2D, for any sign of flux |
| Assembly.UpwindOffDiagonalNonPositive | buildMatrix.py:206-217 | with D_x, D_y ≥ 0 every upwind off-diagonal entry is ≤ 0 |
| Assembly.ZeroFluxInteriorTerm | buildMatrix.py:103-114 | with zero flux each interior term of either scheme equals the central one |
| Assembly.ZeroFluxBoundaryCoeff | buildMatrix.py:115-134 | with zero flux each boundary coefficient of either scheme is 2D |
| Assembly.ZeroFluxSameMatrix | buildMatrix.py:101-134 | with zero flux UDiff and CDiff produce the same matrix |
| Assembly.ZeroFluxSource | buildMatrix.py:233-237 | with zero flux UDiff's B (north term at lines 233-237) differs from CDiff's (north term at lines 130-134) only at north nodes, by 2(D_x - D_y)·phi_N; the corrected scheme agrees with CDiff |
| Assembly.SourceMatchesDiagonal | buildMatrix.py:115-134 | for central and corrected upwind, each side's B contribution is that side's diagonal increment times its Dirichlet value |
| Assembly.UpwindNorthSourceMismatch | buildMatrix.py:233-237 | UDiff as written, 1×1 grid, D_x = 1, D_y = 2, F = 0, phi_N = 1: north diagonal increment 4, B[0] = 2 |
| Assembly.CentralSouthWestCorner | buildMatrix.py:101-134 | central row 0 on a grid at least 2×2: the diagonal, the east and north entries, and B[0] from the west and south sources |
| Mesh.Meshposition | buildMatrix.py:244-258 | IndexError when x_nodes or y_nodes is 0; otherwise dim x- and y-positions, node k at (dx/2 + (k % x_nodes)·dx, dy/2 + (k / x_nodes)·dy) |
| Mesh.CentreStep | buildMatrix.py:250-254 | each centre is the previous one plus the cell width |
| Mesh.BoundaryCentres | buildMatrix.py:244-258 | west/east nodes sit at the first/last column of centres, south/north nodes at the first/last row |
| Mesh.EastNeighbourCentre | buildMatrix.py:244-258 | the east neighbour of a node off the east side is in the same row, one dx further |
| Mesh.NorthNeighbourCentre | buildMatrix.py:244-258 | the north neighbour is in the same column, one dy further |
| Mesh.FlattenAt | buildMatrix.py:269-271 | concatenating m rows of w cells puts cell (k / w, k % w) at position k |
| Mesh.FlattenInverts | buildMatrix.py:269-271 | a list reshaped by divmod flattens back to exactly its first m·w values |
| Mesh.StoreCells | buildMatrix.py:269-271 | the store loop succeeds iff dim = 0 or (X has dim values and each of the first y_nodes rows has at least x_nodes cells); on success every X[k] sits at divmod(k, x_nodes); rows past y_nodes are untouched |
| Mesh.List2Matrix | buildMatrix.py:263-272 | as written: IndexError when y_nodes > x_nodes, or when x_nodes > y_nodes ≥ 1, or X is short; y_nodes = 0 gives x_nodes integer placeholders; square grids get X back row by row |
| Mesh.List2MatrixCorrected | buildMatrix.py:263-272 | scratch list of y_nodes rows of x_nodes cells: fails iff X is short, otherwise a y_nodes × x_nodes grid that flattens back to X |

## Left out

- Progress bars, `print` calls and the `debug` flag (lines 20-21, 29-32 and their copies in CDiff and UDiff) are output only.
- The statement after `return` in List2Matrix (line 273) is unreachable.
- `CircV` and the solve that uses the assembled system are not part of this model.
- Floating-point rounding is not modelled: coefficients and positions are exact reals. In particular, meshposition's repeated addition is proved equal to dx/2 + j·dx exactly.
- Negative node counts are not modelled: they are naturals.
- The per-node arrays `a_w`, `a_e`, `a_s`, `a_n`, `sp_p`, `su_p` are allocated but never used. The `sp_*` and `su_*` arrays are kept only as the local values `sp` and `su`.
- `Boundary` is modelled as a record of four values. A list shorter than four, which raises IndexError at lines 87-90 and 191-194, is not modelled.
- Assembly.CDiff: requires F_x and F_y to hold at least dim values. The source indexes them flat, does not check their length, and raises IndexError when they are short; that error path is not modelled. A 2-D numpy array, where `F_x[i]` would be a row, is also not modelled.
- Assembly.UDiff: requires F_x and F_y to hold at least dim values, for the same reason as CDiff.
- The copies of boundsA's loops inside CDiff (lines 58-63) and UDiff (lines 160-165) are modelled by calling Grid.BoundsA, which computes the same lists.
- boundsA's docstring gives the order w, e, n, s. The code returns w, e, s, n, and the model follows the code.
- np.meshgrid and flatten are modelled by their effect on node k: column k % x_nodes, row k / x_nodes.
- The two IndexErrors in List2Matrix's store loop, missing X[i] and missing column, are both reported as CellMissing.

## Findings

| source | as written | input that shows it | evidently intended | confidence | as-written member | corrected member |
|---|---|---|---|---|---|---|
| buildMatrix.py:235 | the north source term of UDiff is `(2*D_x + max(-F_y[i], 0)) * phi_N`, while the diagonal term beside it (line 234) and the CDiff north term use D_y | 1×1 grid, D_x = 1, D_y = 2, F = 0, phi = (0, 0, 0, 1): diagonal gets 4, B[0] gets 2 instead of 4 | `(2*D_y + max(-F_y[i], 0)) * phi_N` | high, not executed | Assembly.UpwindNorthSourceMismatch | Assembly.SourceMatchesDiagonal |
| buildMatrix.py:266-268 | List2Matrix allocates x_nodes scratch rows of y_nodes cells, but stores at divmod(i, x_nodes), which needs y_nodes rows of x_nodes cells | x_nodes = 2, y_nodes = 1, X = [a, b]: IndexError at line 271 for i = 1; y_nodes = 2, x_nodes = 1: IndexError at line 268 | `Ans = [0] * y_nodes` and `Ans[i] = [0] * x_nodes` | high, not executed | Mesh.List2Matrix | Mesh.List2MatrixCorrected |
