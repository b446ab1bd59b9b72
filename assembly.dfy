/**
 * Finite-volume assembly of steady 2D advection-diffusion (CDiff and UDiff
 * in buildMatrix.py): a dense dim-by-dim coefficient matrix `a` and a
 * right-hand side `B`, filled node by node with eight independent tests.
 *
 * The coefficient formulas are pure functions below; Assemble runs the
 * loop of the source and is proved to produce exactly Entry and Source.
 */
module Assembly {
  import opened Grid

  /**
   * Central differencing (CDiff), upwind differencing as written (UDiff),
   * and upwind differencing with the north right-hand-side term scaled by
   * D_y like the other three sides.
   */
  datatype Scheme = Central | Upwind | UpwindCorrected

  /** The four entries of `Boundary`: phi_W, phi_E, phi_S, phi_N. */
  datatype Dirichlet = Dirichlet(phiW: real, phiE: real, phiS: real, phiN: real)

  /** The arguments of CDiff and UDiff. */
  datatype Problem = Problem(nx: nat, ny: nat, Dx: real, Dy: real, Fx: seq<real>, Fy: seq<real>, bc: Dirichlet)

  /** Every flux index the loop reads (0 .. dim-1) exists. */
  predicate FluxCoversGrid(p: Problem)
  {
    |p.Fx| >= p.nx * p.ny && |p.Fy| >= p.nx * p.ny
  }

  predicate IsNode(p: Problem, i: int)
  {
    0 <= i < p.nx * p.ny
  }

  /** Python's max(f, 0). */
  function Max0(f: real): real
  {
    if f > 0.0 then f else 0.0
  }

  function Phi(bc: Dirichlet, s: Side): real
  {
    match s
    case West => bc.phiW
    case East => bc.phiE
    case South => bc.phiS
    case North => bc.phiN
  }

  /** D_x across the west and east faces, D_y across the south and north faces. */
  function Diffusivity(p: Problem, s: Side): real
  {
    if s == West || s == East then p.Dx else p.Dy
  }

  /** F_x for the west and east faces, F_y for the south and north faces. */
  function Flux(p: Problem, s: Side): seq<real>
  {
    if s == West || s == East then p.Fx else p.Fy
  }

  /**
   * The flux across face s counted positive when it flows into the node:
   * F as given on the west and south faces, -F on the east and north faces.
   */
  function Inflow(s: Side, f: real): real
  {
    if s == West || s == South then f else -f
  }

  /**
   * The coefficient c of the interior term for side s at node i:
   * a[i][neighbour] -= c and a[i][i] += c. It reads the flux at the
   * neighbour, which exists because i is not on side s.
   */
  function InteriorCoeff(sch: Scheme, p: Problem, s: Side, i: int): (r: real)
    requires FluxCoversGrid(p) && IsNode(p, i) && !OnSide(s, i, p.nx, p.ny)
    ensures var j := Neighbor(s, i, p.nx);
      0 <= j < |Flux(p, s)|
      && (sch == Central ==> r == Diffusivity(p, s) + Inflow(s, Flux(p, s)[j]) / 2.0)
      && (sch != Central ==> r == Diffusivity(p, s) + Max0(Inflow(s, Flux(p, s)[j])))
  {
    NeighborInRange(s, i, p.nx, p.ny);
    var f := Flux(p, s)[Neighbor(s, i, p.nx)];
    if sch == Central then
      match s
      case West => p.Dx + f / 2.0
      case East => p.Dx - f / 2.0
      case South => p.Dy + f / 2.0
      case North => p.Dy - f / 2.0
    else
      match s
      case West => p.Dx + Max0(f)
      case East => p.Dx + Max0(-f)
      case South => p.Dy + Max0(f)
      case North => p.Dy + Max0(-f)
  }

  /**
   * The amount the boundary term for side s adds to a[i][i] (that is,
   * -sp with sp the source's sp_W, sp_E, sp_S or sp_N); it reads the
   * flux at node i itself.
   */
  function BoundaryCoeff(sch: Scheme, p: Problem, s: Side, i: int): (r: real)
    requires FluxCoversGrid(p) && IsNode(p, i)
    ensures sch == Central ==> r == 2.0 * Diffusivity(p, s) + Inflow(s, Flux(p, s)[i])
    ensures sch != Central ==> r == 2.0 * Diffusivity(p, s) + Max0(Inflow(s, Flux(p, s)[i]))
  {
    var f := Flux(p, s)[i];
    if sch == Central then
      match s
      case West => 2.0 * p.Dx + f
      case East => 2.0 * p.Dx - f
      case South => 2.0 * p.Dy + f
      case North => 2.0 * p.Dy - f
    else
      match s
      case West => 2.0 * p.Dx + Max0(f)
      case East => 2.0 * p.Dx + Max0(-f)
      case South => 2.0 * p.Dy + Max0(f)
      case North => 2.0 * p.Dy + Max0(-f)
  }

  /**
   * The amount the boundary term for side s adds to B[i] (su_W, su_E, su_S
   * or su_N). UDiff's north term scales by D_x where its diagonal uses D_y.
   */
  function BoundarySource(sch: Scheme, p: Problem, s: Side, i: int): (r: real)
    requires FluxCoversGrid(p) && IsNode(p, i)
    ensures sch != Upwind || s != North ==> r == BoundaryCoeff(sch, p, s, i) * Phi(p.bc, s)
    ensures sch == Upwind && s == North ==>
              r == (BoundaryCoeff(sch, p, s, i) + 2.0 * (p.Dx - p.Dy)) * Phi(p.bc, s)
  {
    if sch == Upwind && s == North then (2.0 * p.Dx + Max0(-p.Fy[i])) * p.bc.phiN
    else BoundaryCoeff(sch, p, s, i) * Phi(p.bc, s)
  }

  /** What the interior test for side s of node i adds to a[i][c]. */
  function InteriorTerm(sch: Scheme, p: Problem, s: Side, i: int, c: int): real
    requires FluxCoversGrid(p) && IsNode(p, i)
  {
    if OnSide(s, i, p.nx, p.ny) then 0.0
    else if c == Neighbor(s, i, p.nx) then -InteriorCoeff(sch, p, s, i)
    else if c == i then InteriorCoeff(sch, p, s, i)
    else 0.0
  }

  /** What the boundary test for side s of node i adds to a[i][c]. */
  function BoundaryTerm(sch: Scheme, p: Problem, s: Side, i: int, c: int): real
    requires FluxCoversGrid(p) && IsNode(p, i)
  {
    if OnSide(s, i, p.nx, p.ny) && c == i then BoundaryCoeff(sch, p, s, i) else 0.0
  }

  /** What the boundary test for side s of node i adds to B[i]. */
  function SourceTerm(sch: Scheme, p: Problem, s: Side, i: int): real
    requires FluxCoversGrid(p) && IsNode(p, i)
  {
    if OnSide(s, i, p.nx, p.ny) then BoundarySource(sch, p, s, i) else 0.0
  }

  /** a[i][c] once node i has had its eight tests, starting from zero. */
  function Entry(sch: Scheme, p: Problem, i: int, c: int): real
    requires FluxCoversGrid(p) && IsNode(p, i)
  {
    InteriorTerm(sch, p, West, i, c) + InteriorTerm(sch, p, East, i, c)
    + InteriorTerm(sch, p, South, i, c) + InteriorTerm(sch, p, North, i, c)
    + BoundaryTerm(sch, p, West, i, c) + BoundaryTerm(sch, p, East, i, c)
    + BoundaryTerm(sch, p, South, i, c) + BoundaryTerm(sch, p, North, i, c)
  }

  /** B[i] once node i has had its four boundary tests, starting from zero. */
  function Source(sch: Scheme, p: Problem, i: int): real
    requires FluxCoversGrid(p) && IsNode(p, i)
  {
    SourceTerm(sch, p, West, i) + SourceTerm(sch, p, East, i)
    + SourceTerm(sch, p, South, i) + SourceTerm(sch, p, North, i)
  }

  // ---------------------------------------------------------------------
  // The assembly loop
  // ---------------------------------------------------------------------

  /** One `if i not in bound` test: an interior stencil term for side s. */
  method AddInterior(a: array2<real>, sch: Scheme, p: Problem, s: Side, bound: seq<int>, i: int)
    requires FluxCoversGrid(p) && IsNode(p, i) && bound == Bound(s, p.nx, p.ny)
    requires a.Length0 == p.nx * p.ny && a.Length1 == p.nx * p.ny
    modifies a
    ensures forall c :: 0 <= c < a.Length1 ==> a[i, c] == old(a[i, c]) + InteriorTerm(sch, p, s, i, c)
    ensures forall r, c :: 0 <= r < a.Length0 && r != i && 0 <= c < a.Length1 ==> a[r, c] == old(a[r, c])
  {
    if i !in bound {
      NeighborInRange(s, i, p.nx, p.ny);
      var j := Neighbor(s, i, p.nx);
      var coeff := InteriorCoeff(sch, p, s, i);
      a[i, j] := a[i, j] - coeff;
      a[i, i] := a[i, i] + coeff;
    }
  }

  /** One `if i in bound` test: a boundary term for side s. */
  method AddBoundary(a: array2<real>, B: array<real>, sch: Scheme, p: Problem, s: Side, bound: seq<int>, i: int)
    requires FluxCoversGrid(p) && IsNode(p, i) && bound == Bound(s, p.nx, p.ny)
    requires a.Length0 == p.nx * p.ny && a.Length1 == p.nx * p.ny && B.Length == p.nx * p.ny
    modifies a, B
    ensures forall c :: 0 <= c < a.Length1 ==> a[i, c] == old(a[i, c]) + BoundaryTerm(sch, p, s, i, c)
    ensures forall r, c :: 0 <= r < a.Length0 && r != i && 0 <= c < a.Length1 ==> a[r, c] == old(a[r, c])
    ensures B[i] == old(B[i]) + SourceTerm(sch, p, s, i)
    ensures forall r :: 0 <= r < B.Length && r != i ==> B[r] == old(B[r])
  {
    if i in bound {
      var sp := -BoundaryCoeff(sch, p, s, i);
      var su := BoundarySource(sch, p, s, i);
      a[i, i] := a[i, i] - sp;
      B[i] := B[i] + su;
    }
  }

  /** The body of the loop for node i: four interior tests, then four boundary tests. */
  method AssembleNode(a: array2<real>, B: array<real>, sch: Scheme, p: Problem,
                      w: seq<int>, e: seq<int>, s: seq<int>, n: seq<int>, i: int)
    requires FluxCoversGrid(p) && IsNode(p, i)
    requires w == Bound(West, p.nx, p.ny) && e == Bound(East, p.nx, p.ny)
    requires s == Bound(South, p.nx, p.ny) && n == Bound(North, p.nx, p.ny)
    requires a.Length0 == p.nx * p.ny && a.Length1 == p.nx * p.ny && B.Length == p.nx * p.ny
    modifies a, B
    ensures forall c :: 0 <= c < a.Length1 ==> a[i, c] == old(a[i, c]) + Entry(sch, p, i, c)
    ensures forall r, c :: 0 <= r < a.Length0 && r != i && 0 <= c < a.Length1 ==> a[r, c] == old(a[r, c])
    ensures B[i] == old(B[i]) + Source(sch, p, i)
    ensures forall r :: 0 <= r < B.Length && r != i ==> B[r] == old(B[r])
  {
    AddInterior(a, sch, p, West, w, i);
    AddInterior(a, sch, p, East, e, i);
    AddInterior(a, sch, p, South, s, i);
    AddInterior(a, sch, p, North, n, i);
    AddBoundary(a, B, sch, p, West, w, i);
    AddBoundary(a, B, sch, p, East, e, i);
    AddBoundary(a, B, sch, p, South, s, i);
    AddBoundary(a, B, sch, p, North, n, i);
  }

  /**
   * The shared body of CDiff and UDiff: compute the boundary lists,
   * allocate a zero matrix and a zero right-hand side, and run the
   * eight tests on every node in order.
   */
  method Assemble(sch: Scheme, p: Problem) returns (a: array2<real>, B: array<real>)
    requires FluxCoversGrid(p)
    ensures fresh(a) && fresh(B)
    ensures a.Length0 == p.nx * p.ny && a.Length1 == p.nx * p.ny && B.Length == p.nx * p.ny
    ensures forall i, c :: 0 <= i < a.Length0 && 0 <= c < a.Length1 ==> a[i, c] == Entry(sch, p, i, c)
    ensures forall i :: 0 <= i < B.Length ==> B[i] == Source(sch, p, i)
  {
    var wb, eb, sb, nb := BoundsA(p.nx, p.ny);
    assert wb == Bound(West, p.nx, p.ny) && eb == Bound(East, p.nx, p.ny);
    assert sb == Bound(South, p.nx, p.ny) && nb == Bound(North, p.nx, p.ny);
    var dim := p.nx * p.ny;
    a := new real[dim, dim]((_, _) => 0.0);
    B := new real[dim](_ => 0.0);
    for i := 0 to dim
      invariant forall r, c :: 0 <= r < i && 0 <= c < dim ==> a[r, c] == Entry(sch, p, r, c)
      invariant forall r, c :: i <= r < dim && 0 <= c < dim ==> a[r, c] == 0.0
      invariant forall r :: 0 <= r < i ==> B[r] == Source(sch, p, r)
      invariant forall r :: i <= r < dim ==> B[r] == 0.0
    {
      AssembleNode(a, B, sch, p, wb, eb, sb, nb, i);
    }
  }

  /** CDiff: central-difference assembly. */
  method CDiff(nx: nat, ny: nat, Dx: real, Dy: real, Fx: seq<real>, Fy: seq<real>, boundary: Dirichlet)
    returns (a: array2<real>, B: array<real>)
    requires |Fx| >= nx * ny && |Fy| >= nx * ny
    ensures fresh(a) && fresh(B)
    ensures a.Length0 == nx * ny && a.Length1 == nx * ny && B.Length == nx * ny
    ensures forall i, c :: 0 <= i < nx * ny && 0 <= c < nx * ny ==>
              a[i, c] == Entry(Central, Problem(nx, ny, Dx, Dy, Fx, Fy, boundary), i, c)
    ensures forall i :: 0 <= i < nx * ny ==>
              B[i] == Source(Central, Problem(nx, ny, Dx, Dy, Fx, Fy, boundary), i)
  {
    a, B := Assemble(Central, Problem(nx, ny, Dx, Dy, Fx, Fy, boundary));
  }

  /** UDiff: upwind-difference assembly, as written. */
  method UDiff(nx: nat, ny: nat, Dx: real, Dy: real, Fx: seq<real>, Fy: seq<real>, boundary: Dirichlet)
    returns (a: array2<real>, B: array<real>)
    requires |Fx| >= nx * ny && |Fy| >= nx * ny
    ensures fresh(a) && fresh(B)
    ensures a.Length0 == nx * ny && a.Length1 == nx * ny && B.Length == nx * ny
    ensures forall i, c :: 0 <= i < nx * ny && 0 <= c < nx * ny ==>
              a[i, c] == Entry(Upwind, Problem(nx, ny, Dx, Dy, Fx, Fy, boundary), i, c)
    ensures forall i :: 0 <= i < nx * ny ==>
              B[i] == Source(Upwind, Problem(nx, ny, Dx, Dy, Fx, Fy, boundary), i)
  {
    a, B := Assemble(Upwind, Problem(nx, ny, Dx, Dy, Fx, Fy, boundary));
  }

  /**
   * UDiff with the north right-hand-side term scaled by D_y, as the
   * diagonal term next to it is.
   */
  method UDiffCorrected(nx: nat, ny: nat, Dx: real, Dy: real, Fx: seq<real>, Fy: seq<real>, boundary: Dirichlet)
    returns (a: array2<real>, B: array<real>)
    requires |Fx| >= nx * ny && |Fy| >= nx * ny
    ensures fresh(a) && fresh(B)
    ensures a.Length0 == nx * ny && a.Length1 == nx * ny && B.Length == nx * ny
    ensures forall i, c :: 0 <= i < nx * ny && 0 <= c < nx * ny ==>
              a[i, c] == Entry(UpwindCorrected, Problem(nx, ny, Dx, Dy, Fx, Fy, boundary), i, c)
    ensures forall i :: 0 <= i < nx * ny ==>
              B[i] == Source(UpwindCorrected, Problem(nx, ny, Dx, Dy, Fx, Fy, boundary), i)
  {
    a, B := Assemble(UpwindCorrected, Problem(nx, ny, Dx, Dy, Fx, Fy, boundary));
  }

  // ---------------------------------------------------------------------
  // Stencil shape
  // ---------------------------------------------------------------------

  /**
   * Row i is written only on the diagonal and at the neighbours that
   * exist: a column that is neither i nor the neighbour across a side
   * node i is not on stays zero (in particular a wrapped index never is).
   */
  lemma EntryOutsideStencil(sch: Scheme, p: Problem, i: int, c: int)
    requires FluxCoversGrid(p) && IsNode(p, i) && c != i
    requires forall s: Side :: OnSide(s, i, p.nx, p.ny) || c != Neighbor(s, i, p.nx)
    ensures Entry(sch, p, i, c) == 0.0
  {
  }

  /** The entry at an existing neighbour is exactly minus that face's coefficient. */
  lemma {:induction false} EntryAtNeighbor(sch: Scheme, p: Problem, s: Side, i: int)
    requires FluxCoversGrid(p) && IsNode(p, i) && !OnSide(s, i, p.nx, p.ny)
    ensures Entry(sch, p, i, Neighbor(s, i, p.nx)) == -InteriorCoeff(sch, p, s, i)
  {
    NeighborInRange(s, i, p.nx, p.ny);
    OnSideIff(West, i, p.nx, p.ny);
    OnSideIff(East, i, p.nx, p.ny);
  }

  /**
   * Each side contributes exactly one term to the diagonal: the interior
   * coefficient when the neighbour exists, the boundary coefficient when
   * the node is on that side.
   */
  function SideDiagonal(sch: Scheme, p: Problem, s: Side, i: int): real
    requires FluxCoversGrid(p) && IsNode(p, i)
  {
    if OnSide(s, i, p.nx, p.ny) then BoundaryCoeff(sch, p, s, i) else InteriorCoeff(sch, p, s, i)
  }

  lemma {:induction false} DiagonalEntry(sch: Scheme, p: Problem, i: int)
    requires FluxCoversGrid(p) && IsNode(p, i)
    ensures Entry(sch, p, i, i) == SideDiagonal(sch, p, West, i) + SideDiagonal(sch, p, East, i)
                                 + SideDiagonal(sch, p, South, i) + SideDiagonal(sch, p, North, i)
  {
    forall s: Side | !OnSide(s, i, p.nx, p.ny)
      ensures Neighbor(s, i, p.nx) != i
    {
      NeighborInRange(s, i, p.nx, p.ny);
    }
  }

  // ---------------------------------------------------------------------
  // Row sums
  // ---------------------------------------------------------------------

  /** a[i][0] + ... + a[i][n-1]. */
  function RowSum(sch: Scheme, p: Problem, i: int, n: nat): real
    requires FluxCoversGrid(p) && IsNode(p, i)
  {
    if n == 0 then 0.0 else RowSum(sch, p, i, n - 1) + Entry(sch, p, i, n - 1)
  }

  /** The part of a[i][i] that the boundary tests put there. */
  function BoundaryDiagonal(sch: Scheme, p: Problem, i: int): real
    requires FluxCoversGrid(p) && IsNode(p, i)
  {
    BoundaryTerm(sch, p, West, i, i) + BoundaryTerm(sch, p, East, i, i)
    + BoundaryTerm(sch, p, South, i, i) + BoundaryTerm(sch, p, North, i, i)
  }

  /** The sum over columns below n of what the interior test for side s adds. */
  function InteriorPrefix(sch: Scheme, p: Problem, s: Side, i: int, n: nat): real
    requires FluxCoversGrid(p) && IsNode(p, i)
  {
    if OnSide(s, i, p.nx, p.ny) then 0.0
    else
      (if Neighbor(s, i, p.nx) < n then -InteriorCoeff(sch, p, s, i) else 0.0)
      + (if i < n then InteriorCoeff(sch, p, s, i) else 0.0)
  }

  lemma InteriorPrefixStep(sch: Scheme, p: Problem, s: Side, i: int, n: nat)
    requires FluxCoversGrid(p) && IsNode(p, i) && n > 0
    ensures InteriorPrefix(sch, p, s, i, n) == InteriorPrefix(sch, p, s, i, n - 1) + InteriorTerm(sch, p, s, i, n - 1)
  {
    if !OnSide(s, i, p.nx, p.ny) {
      NeighborInRange(s, i, p.nx, p.ny);
    }
  }

  /** The four interior terms of a[i][c] together. */
  function InteriorTerms(sch: Scheme, p: Problem, i: int, c: int): real
    requires FluxCoversGrid(p) && IsNode(p, i)
  {
    InteriorTerm(sch, p, West, i, c) + InteriorTerm(sch, p, East, i, c)
    + InteriorTerm(sch, p, South, i, c) + InteriorTerm(sch, p, North, i, c)
  }

  /** The four interior prefixes together. */
  function InteriorPrefixes(sch: Scheme, p: Problem, i: int, n: nat): real
    requires FluxCoversGrid(p) && IsNode(p, i)
  {
    InteriorPrefix(sch, p, West, i, n) + InteriorPrefix(sch, p, East, i, n)
    + InteriorPrefix(sch, p, South, i, n) + InteriorPrefix(sch, p, North, i, n)
  }

  lemma EntrySplit(sch: Scheme, p: Problem, i: int, c: int)
    requires FluxCoversGrid(p) && IsNode(p, i)
    ensures Entry(sch, p, i, c) == InteriorTerms(sch, p, i, c) + (if c == i then BoundaryDiagonal(sch, p, i) else 0.0)
  {
  }

  lemma InteriorPrefixesStep(sch: Scheme, p: Problem, i: int, n: nat)
    requires FluxCoversGrid(p) && IsNode(p, i) && n > 0
    ensures InteriorPrefixes(sch, p, i, n) == InteriorPrefixes(sch, p, i, n - 1) + InteriorTerms(sch, p, i, n - 1)
  {
    InteriorPrefixStep(sch, p, West, i, n);
    InteriorPrefixStep(sch, p, East, i, n);
    InteriorPrefixStep(sch, p, South, i, n);
    InteriorPrefixStep(sch, p, North, i, n);
  }

  lemma {:induction false} RowSumPrefix(sch: Scheme, p: Problem, i: int, n: nat)
    requires FluxCoversGrid(p) && IsNode(p, i)
    ensures RowSum(sch, p, i, n) ==
              InteriorPrefixes(sch, p, i, n) + (if i < n then BoundaryDiagonal(sch, p, i) else 0.0)
  {
    if n > 0 {
      RowSumPrefix(sch, p, i, n - 1);
      InteriorPrefixesStep(sch, p, i, n);
      EntrySplit(sch, p, i, n - 1);
    } else {
      forall s: Side | !OnSide(s, i, p.nx, p.ny)
        ensures 0 <= Neighbor(s, i, p.nx)
      {
        NeighborInRange(s, i, p.nx, p.ny);
      }
    }
  }

  /**
   * Every interior term moves the same amount off the diagonal as onto it,
   * so row i sums to what the boundary terms put on the diagonal, for any
   * flux field.
   */
  lemma {:induction false} RowSumIsBoundaryDiagonal(sch: Scheme, p: Problem, i: int)
    requires FluxCoversGrid(p) && IsNode(p, i)
    ensures RowSum(sch, p, i, p.nx * p.ny) == BoundaryDiagonal(sch, p, i)
  {
    RowSumPrefix(sch, p, i, p.nx * p.ny);
    forall s: Side | !OnSide(s, i, p.nx, p.ny)
      ensures 0 <= Neighbor(s, i, p.nx) < p.nx * p.ny
    {
      NeighborInRange(s, i, p.nx, p.ny);
    }
  }

  /** A node on no boundary has a zero row sum and a zero right-hand side. */
  lemma {:induction false} InteriorNodeBalanced(sch: Scheme, p: Problem, i: int)
    requires FluxCoversGrid(p) && IsNode(p, i)
    requires forall s: Side :: !OnSide(s, i, p.nx, p.ny)
    ensures RowSum(sch, p, i, p.nx * p.ny) == 0.0
    ensures Source(sch, p, i) == 0.0
  {
    RowSumIsBoundaryDiagonal(sch, p, i);
  }

  // ---------------------------------------------------------------------
  // Upwind signs
  // ---------------------------------------------------------------------

  /**
   * With upwinding, the coefficient at an existing neighbour is at most
   * minus the diffusivity across that face, and each boundary term adds
   * at least twice that diffusivity to the diagonal, for any sign of flux.
   */
  lemma {:induction false} UpwindSigns(sch: Scheme, p: Problem, s: Side, i: int)
    requires sch != Central && FluxCoversGrid(p) && IsNode(p, i)
    ensures !OnSide(s, i, p.nx, p.ny) ==> Entry(sch, p, i, Neighbor(s, i, p.nx)) <= -Diffusivity(p, s)
    ensures BoundaryCoeff(sch, p, s, i) >= 2.0 * Diffusivity(p, s)
  {
    if !OnSide(s, i, p.nx, p.ny) {
      EntryAtNeighbor(sch, p, s, i);
    }
  }

  /** With non-negative diffusivities every upwind off-diagonal entry is non-positive. */
  lemma UpwindOffDiagonalNonPositive(sch: Scheme, p: Problem, i: int, c: int)
    requires sch != Central && FluxCoversGrid(p) && IsNode(p, i) && c != i
    requires p.Dx >= 0.0 && p.Dy >= 0.0
    ensures Entry(sch, p, i, c) <= 0.0
  {
  }

  // ---------------------------------------------------------------------
  // Zero flux: central and upwind agree
  // ---------------------------------------------------------------------

  predicate ZeroFlux(p: Problem)
  {
    (forall k :: 0 <= k < |p.Fx| ==> p.Fx[k] == 0.0) && (forall k :: 0 <= k < |p.Fy| ==> p.Fy[k] == 0.0)
  }

  lemma ZeroFluxInteriorTerm(sch: Scheme, p: Problem, s: Side, i: int, c: int)
    requires FluxCoversGrid(p) && IsNode(p, i) && ZeroFlux(p)
    ensures InteriorTerm(sch, p, s, i, c) == InteriorTerm(Central, p, s, i, c)
  {
    if !OnSide(s, i, p.nx, p.ny) {
      NeighborInRange(s, i, p.nx, p.ny);
      assert Flux(p, s)[Neighbor(s, i, p.nx)] == 0.0;
    }
  }

  lemma ZeroFluxBoundaryCoeff(sch: Scheme, p: Problem, s: Side, i: int)
    requires FluxCoversGrid(p) && IsNode(p, i) && ZeroFlux(p)
    ensures BoundaryCoeff(sch, p, s, i) == BoundaryCoeff(Central, p, s, i) == 2.0 * Diffusivity(p, s)
  {
    assert Flux(p, s)[i] == 0.0;
  }

  lemma ZeroFluxSourceTerm(sch: Scheme, p: Problem, s: Side, i: int)
    requires FluxCoversGrid(p) && IsNode(p, i) && ZeroFlux(p)
    ensures SourceTerm(sch, p, s, i) ==
              SourceTerm(Central, p, s, i)
              + (if sch == Upwind && s == North && OnSide(s, i, p.nx, p.ny)
                 then 2.0 * (p.Dx - p.Dy) * p.bc.phiN else 0.0)
  {
    ZeroFluxBoundaryCoeff(sch, p, s, i);
    assert p.Fy[i] == 0.0;
  }

  /** With no flux both schemes reduce to pure diffusion and give the same matrix. */
  lemma {:induction false} ZeroFluxSameMatrix(sch: Scheme, p: Problem, i: int, c: int)
    requires FluxCoversGrid(p) && IsNode(p, i) && ZeroFlux(p)
    ensures Entry(sch, p, i, c) == Entry(Central, p, i, c)
  {
    ZeroFluxInteriorTerm(sch, p, West, i, c);
    ZeroFluxInteriorTerm(sch, p, East, i, c);
    ZeroFluxInteriorTerm(sch, p, South, i, c);
    ZeroFluxInteriorTerm(sch, p, North, i, c);
    ZeroFluxBoundaryCoeff(sch, p, West, i);
    ZeroFluxBoundaryCoeff(sch, p, East, i);
    ZeroFluxBoundaryCoeff(sch, p, South, i);
    ZeroFluxBoundaryCoeff(sch, p, North, i);
  }

  /**
   * With no flux the right-hand sides differ only at north nodes, by
   * 2 (D_x - D_y) phi_N, so they agree when D_x == D_y; the corrected
   * upwind scheme agrees with central everywhere.
   */
  lemma {:induction false} ZeroFluxSource(p: Problem, i: int)
    requires FluxCoversGrid(p) && IsNode(p, i) && ZeroFlux(p)
    ensures Source(Upwind, p, i) ==
              Source(Central, p, i) + (if OnSide(North, i, p.nx, p.ny) then 2.0 * (p.Dx - p.Dy) * p.bc.phiN else 0.0)
    ensures p.Dx == p.Dy ==> Source(Upwind, p, i) == Source(Central, p, i)
    ensures Source(UpwindCorrected, p, i) == Source(Central, p, i)
  {
    ZeroFluxSourceTerm(Upwind, p, West, i);
    ZeroFluxSourceTerm(Upwind, p, East, i);
    ZeroFluxSourceTerm(Upwind, p, South, i);
    ZeroFluxSourceTerm(Upwind, p, North, i);
    ZeroFluxSourceTerm(UpwindCorrected, p, West, i);
    ZeroFluxSourceTerm(UpwindCorrected, p, East, i);
    ZeroFluxSourceTerm(UpwindCorrected, p, South, i);
    ZeroFluxSourceTerm(UpwindCorrected, p, North, i);
  }

  // ---------------------------------------------------------------------
  // Boundary terms and the right-hand side
  // ---------------------------------------------------------------------

  /**
   * For central differencing (and corrected upwinding) B[i] is, side by
   * side, the boundary diagonal increment times that side's Dirichlet value.
   */
  lemma SourceMatchesDiagonal(sch: Scheme, p: Problem, s: Side, i: int)
    requires sch != Upwind && FluxCoversGrid(p) && IsNode(p, i)
    ensures SourceTerm(sch, p, s, i) == BoundaryTerm(sch, p, s, i, i) * Phi(p.bc, s)
  {
  }

  /**
   * UDiff as written breaks that rule at north nodes: on a one-node grid
   * with D_x = 1, D_y = 2, no flux and phi_N = 1 (other sides 0), the
   * north diagonal increment is 4 but B receives 2.
   */
  lemma UpwindNorthSourceMismatch()
    ensures var p := Problem(1, 1, 1.0, 2.0, [0.0], [0.0], Dirichlet(0.0, 0.0, 0.0, 1.0));
            FluxCoversGrid(p) && OnSide(North, 0, 1, 1)
            && BoundaryTerm(Upwind, p, North, 0, 0) == 4.0
            && Source(Upwind, p, 0) == 2.0
  {
    BoundsInRange(1, 1);
  }

  /**
   * The south-west corner of a grid at least 2 by 2 under central
   * differencing: two interior terms (east, north) and two boundary terms
   * (west, south) on the diagonal, and the west and south sources in B.
   */
  lemma {:induction false} CentralSouthWestCorner(p: Problem)
    requires FluxCoversGrid(p) && p.nx >= 2 && p.ny >= 2
    ensures p.nx < p.nx * p.ny
    ensures Entry(Central, p, 0, 0) ==
              (p.Dx - p.Fx[1] / 2.0) + (p.Dy - p.Fy[p.nx] / 2.0) + (2.0 * p.Dx + p.Fx[0]) + (2.0 * p.Dy + p.Fy[0])
    ensures Entry(Central, p, 0, 1) == -(p.Dx - p.Fx[1] / 2.0)
    ensures Entry(Central, p, 0, p.nx) == -(p.Dy - p.Fy[p.nx] / 2.0)
    ensures Source(Central, p, 0) == (2.0 * p.Dx + p.Fx[0]) * p.bc.phiW + (2.0 * p.Dy + p.Fy[0]) * p.bc.phiS
  {
    MulStrictMono(1, p.ny, p.nx);
    BoundsInRange(p.nx, p.ny);
    OnSideIff(East, 0, p.nx, p.ny);
    OnSideIff(North, 0, p.nx, p.ny);
    DiagonalEntry(Central, p, 0);
    EntryAtNeighbor(Central, p, East, 0);
    EntryAtNeighbor(Central, p, North, 0);
  }
}
