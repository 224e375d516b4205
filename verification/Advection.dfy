/** The advection kernels of example/amrexadvecation on one periodic level,
    over the reals. The x, y and z versions of a kernel differ only in the axis,
    so the axis (0, 1, 2) is a parameter. */
module AdvectionKernels {
  function Abs(r: real): real { if r < 0.0 then -r else r }
  function Least(a: real, b: real): real { if b < a then b else a }

  /** dsgn * min(dlim, size) with dlim from the one-sided differences. */
  function Limited(dlft: real, drgt: real, size: real): real {
    var dsgn := if 0.5 * (dlft + drgt) < 0.0 then -1.0 else 1.0;
    var dslop := 2.0 * (if Abs(dlft) < Abs(drgt) then Abs(dlft) else Abs(drgt));
    var dlim := if dlft * drgt >= 0.0 then dslop else 0.0;
    dsgn * Least(dlim, size)
  }

  /** slopex2, slopey2, slopez2. */
  function SecondOrder(dlft: real, drgt: real): real { Limited(dlft, drgt, Abs(0.5 * (dlft + drgt))) }

  /** slopex4, slopey4, slopez4. */
  function FourthOrder(dlft: real, drgt: real, dqAbove: real, dqBelow: real): real {
    Limited(dlft, drgt, Abs(4.0 / 3.0 * (0.5 * (dlft + drgt)) - (1.0 / 6.0) * (dqAbove + dqBelow)))
  }

  /** flux_x, flux_y, flux_z: the upwind state at a face, traced back half a
      time step. */
  function EdgeValue(v: real, ratio: real, above: real, below: real, slopeAbove: real, slopeBelow: real): real {
    if v < 0.0 then above - slopeAbove * (0.5 + 0.5 * ratio * v) else below + slopeBelow * (0.5 - 0.5 * ratio * v)
  }

  /** Mean velocity across a cell times the difference of its face states. */
  function CrossValue(vAbove: real, vBelow: real, above: real, below: real): real {
    0.5 * (vAbove + vBelow) * (above - below)
  }

  /** flux_xy and the five others, from the crossing term of the upwind cell. */
  function TransverseValue(state: real, ratio: real, cross: real): real { state - ratio / 3.0 * cross }

  /** create_flux_x, create_flux_y, create_flux_z. */
  function FluxValue(v: real, state: real, ratioB: real, crossB: real, ratioC: real, crossC: real): real {
    v * (state - 0.5 * ratioB * crossB - 0.5 * ratioC * crossC)
  }

  // ------------------------------------------------------------------
  // Edge states stay between their neighbours
  // ------------------------------------------------------------------

  predicate Between(r: real, a: real, b: real) { a <= r <= b || b <= r <= a }

  /** The sign of the difference and at most twice its size. */
  predicate LimitedBy(slope: real, diff: real) { 0.0 <= slope <= 2.0 * diff || 2.0 * diff <= slope <= 0.0 }

  lemma NegativeProduct(a: real, b: real)
    requires a > 0.0 && b < 0.0
    ensures a * b < 0.0 && b * a < 0.0
  {
  }

  lemma LimitedBounds(dlft: real, drgt: real, size: real)
    requires size >= 0.0
    ensures LimitedBy(Limited(dlft, drgt, size), dlft) && LimitedBy(Limited(dlft, drgt, size), drgt)
  {
    if dlft > 0.0 && drgt < 0.0 { NegativeProduct(dlft, drgt); }
    if dlft < 0.0 && drgt > 0.0 { NegativeProduct(drgt, dlft); }
  }

  /** The fourth-order slope is limited whatever the second-order slopes are. */
  lemma FourthOrderBounds(dlft: real, drgt: real, dqAbove: real, dqBelow: real)
    ensures LimitedBy(FourthOrder(dlft, drgt, dqAbove, dqBelow), dlft)
    ensures LimitedBy(FourthOrder(dlft, drgt, dqAbove, dqBelow), drgt)
  {
    LimitedBounds(dlft, drgt, Abs(4.0 / 3.0 * (0.5 * (dlft + drgt)) - (1.0 / 6.0) * (dqAbove + dqBelow)));
  }

  lemma Part(s: real, f: real)
    requires s >= 0.0 && 0.0 <= f <= 1.0
    ensures 0.0 <= s * f <= s
  {
    assert s * (1.0 - f) >= 0.0;
  }

  lemma PartNegative(s: real, f: real)
    requires s <= 0.0 && 0.0 <= f <= 1.0
    ensures s <= s * f <= 0.0
  {
    var m := -s;
    Part(m, f);
    assert (s + m) * f == 0.0;
    assert s * f + m * f == 0.0;
  }

  predicate PartOf(t: real, s: real) { 0.0 <= t <= s || s <= t <= 0.0 }

  lemma AnyPart(s: real, f: real)
    requires 0.0 <= f <= 1.0
    ensures PartOf(s * f, s)
  {
    if s >= 0.0 { Part(s, f); } else { PartNegative(s, f); }
  }

  /** At most one half of a limited slope stays within the difference. */
  lemma Halved(slope: real, diff: real, t: real)
    requires LimitedBy(slope, diff) && PartOf(t, slope)
    ensures PartOf(0.5 * t, diff)
  {
  }

  lemma SignOf(ratio: real, v: real)
    requires ratio >= 0.0
    ensures (v < 0.0 ==> ratio * v <= 0.0) && (v >= 0.0 ==> ratio * v >= 0.0)
  {
  }

  lemma Halves(slope: real, ratio: real, v: real)
    ensures slope * (0.5 + 0.5 * ratio * v) == 0.5 * (slope * (1.0 + ratio * v))
    ensures slope * (0.5 - 0.5 * ratio * v) == 0.5 * (slope * (1.0 - ratio * v))
  {
    assert 0.5 + 0.5 * ratio * v == 0.5 * (1.0 + ratio * v);
    assert 0.5 - 0.5 * ratio * v == 0.5 * (1.0 - ratio * v);
  }

  lemma EdgeValueBetween(v: real, ratio: real, above: real, below: real, sa: real, sb: real)
    requires ratio >= 0.0 && Abs(ratio * v) <= 1.0 && LimitedBy(sa, above - below) && LimitedBy(sb, above - below)
    ensures Between(EdgeValue(v, ratio, above, below, sa, sb), below, above)
  {
    SignOf(ratio, v);
    if v < 0.0 {
      AnyPart(sa, 1.0 + ratio * v);
      Halved(sa, above - below, sa * (1.0 + ratio * v));
      Halves(sa, ratio, v);
    } else {
      AnyPart(sb, 1.0 - ratio * v);
      Halved(sb, above - below, sb * (1.0 - ratio * v));
      Halves(sb, ratio, v);
    }
  }

  // ------------------------------------------------------------------
  // Flat input
  // ------------------------------------------------------------------

  lemma FlatSlopes()
    ensures SecondOrder(0.0, 0.0) == 0.0 && FourthOrder(0.0, 0.0, 0.0, 0.0) == 0.0
  {
  }

  lemma FlatEdge(v: real, ratio: real, c: real)
    ensures EdgeValue(v, ratio, c, c, 0.0, 0.0) == c
  {
  }

  lemma FlatCross(v: real, w: real, c: real)
    ensures CrossValue(v, w, c, c) == 0.0
  {
  }

  lemma FlatTransverse(c: real, ratio: real)
    ensures TransverseValue(c, ratio, 0.0) == c
  {
  }

  lemma FlatFlux(v: real, c: real, ratioB: real, ratioC: real)
    ensures FluxValue(v, c, ratioB, 0.0, ratioC, 0.0) == v * c
  {
    assert 0.5 * ratioB * 0.0 == 0.0 && 0.5 * ratioC * 0.0 == 0.0;
  }
}

module Advection {
  import opened Boxes
  import K = AdvectionKernels

  /** A cell- or face-centred field; faces are numbered by the cell above. */
  type Field = Point -> real

  /** The point d cells further along an axis. */
  function Toward(p: Point, axis: nat, d: int): Point
    requires axis < 3
  {
    if axis == 0 then p.(x := p.x + d) else if axis == 1 then p.(y := p.y + d) else p.(z := p.z + d)
  }

  /** The formulas of the kernels; the chain below only composes them. */
  datatype Scheme = Scheme(
    second: (real, real) -> real,
    fourth: (real, real, real, real) -> real,
    edge: (real, real, real, real, real, real) -> real,
    cross: (real, real, real, real) -> real,
    transverse: (real, real, real) -> real,
    flux: (real, real, real, real, real, real) -> real)

  function SourceScheme(): Scheme {
    Scheme(K.SecondOrder, K.FourthOrder, K.EdgeValue, K.CrossValue, K.TransverseValue, K.FluxValue)
  }

  /** How the kernels act on flat input. */
  predicate FlatSlopes(k: Scheme) { k.second(0.0, 0.0) == 0.0 && k.fourth(0.0, 0.0, 0.0, 0.0) == 0.0 }
  predicate FlatEdge(k: Scheme, v: real, r: real, c: real) { k.edge(v, r, c, c, 0.0, 0.0) == c }
  predicate FlatCross(k: Scheme, v: real, w: real, c: real) { k.cross(v, w, c, c) == 0.0 }
  predicate FlatTransverse(k: Scheme, r: real, c: real) { k.transverse(c, r, 0.0) == c }
  predicate FlatFlux(k: Scheme, v: real, c: real, r: real, s: real) { k.flux(v, c, r, 0.0, s, 0.0) == v * c }

  /** How the kernels act on flat input. */
  ghost predicate Flat(k: Scheme) {
    && FlatSlopes(k)
    && (forall v: real, r: real, c: real :: FlatEdge(k, v, r, c))
    && (forall v: real, w: real, c: real :: FlatCross(k, v, w, c))
    && (forall r: real, c: real :: FlatTransverse(k, r, c))
    && (forall v: real, c: real, r: real, s: real :: FlatFlux(k, v, c, r, s))
  }

  lemma SlopesAreSource(a: real, b: real, c: real, d: real)
    ensures SourceScheme().second(a, b) == K.SecondOrder(a, b)
    ensures SourceScheme().fourth(a, b, c, d) == K.FourthOrder(a, b, c, d)
  {
  }

  lemma SourceSlopes()
    ensures FlatSlopes(SourceScheme())
  {
    SlopesAreSource(0.0, 0.0, 0.0, 0.0);
    K.FlatSlopes();
  }

  lemma SourceEdge(v: real, r: real, c: real)
    ensures FlatEdge(SourceScheme(), v, r, c)
  {
    K.FlatEdge(v, r, c);
  }

  lemma SourceCross(v: real, w: real, c: real)
    ensures FlatCross(SourceScheme(), v, w, c)
  {
    K.FlatCross(v, w, c);
  }

  lemma SourceTransverse(r: real, c: real)
    ensures FlatTransverse(SourceScheme(), r, c)
  {
    K.FlatTransverse(c, r);
  }

  lemma SourceFlux(v: real, c: real, r: real, s: real)
    ensures FlatFlux(SourceScheme(), v, c, r, s)
  {
    K.FlatFlux(v, c, r, s);
  }

  lemma SourceIsFlat()
    ensures Flat(SourceScheme())
  {
    SourceSlopes();
    forall v: real, r: real, c: real ensures FlatEdge(SourceScheme(), v, r, c) { SourceEdge(v, r, c); }
    forall v: real, w: real, c: real ensures FlatCross(SourceScheme(), v, w, c) { SourceCross(v, w, c); }
    forall r: real, c: real ensures FlatTransverse(SourceScheme(), r, c) { SourceTransverse(r, c); }
    forall v: real, c: real, r: real, s: real ensures FlatFlux(SourceScheme(), v, c, r, s) { SourceFlux(v, c, r, s); }
  }

  // ------------------------------------------------------------------
  // The kernels over a field
  // ------------------------------------------------------------------

  function Left(axis: nat, q: Field, p: Point): real
    requires axis < 3
  {
    q(p) - q(Toward(p, axis, -1))
  }

  function Right(axis: nat, q: Field, p: Point): real
    requires axis < 3
  {
    q(Toward(p, axis, 1)) - q(p)
  }

  function Slope2(k: Scheme, axis: nat, q: Field): Field
    requires axis < 3
  {
    (p: Point) => k.second(Left(axis, q, p), Right(axis, q, p))
  }

  function Slope4(k: Scheme, axis: nat, q: Field, dq: Field): Field
    requires axis < 3
  {
    (p: Point) => k.fourth(Left(axis, q, p), Right(axis, q, p), dq(Toward(p, axis, 1)), dq(Toward(p, axis, -1)))
  }

  /** The state at the face below p. */
  function EdgeState(k: Scheme, axis: nat, phi: Field, v: Field, slope: Field, ratio: real): Field
    requires axis < 3
  {
    (p: Point) => k.edge(v(p), ratio, phi(p), phi(Toward(p, axis, -1)), slope(p), slope(Toward(p, axis, -1)))
  }

  /** The cell the flow at the face comes from. */
  function Upwind(axis: nat, v: Field, p: Point): Point
    requires axis < 3
  {
    if v(p) < 0.0 then p else Toward(p, axis, -1)
  }

  function Crossing(k: Scheme, axis: nat, v: Field, state: Field, c: Point): real
    requires axis < 3
  {
    k.cross(v(Toward(c, axis, 1)), v(c), state(Toward(c, axis, 1)), state(c))
  }

  function Transverse(k: Scheme, a: nat, b: nat, va: Field, vb: Field, pa: Field, pb: Field, ratioB: real): Field
    requires a < 3 && b < 3
  {
    (p: Point) => k.transverse(pa(p), ratioB, Crossing(k, b, vb, pb, Upwind(a, va, p)))
  }

  function CreateFlux(k: Scheme, a: nat, b: nat, c: nat, va: Field, vb: Field, vc: Field, pa: Field, pbc: Field,
                      pcb: Field, ratioB: real, ratioC: real): Field
    requires a < 3 && b < 3 && c < 3
  {
    (p: Point) => k.flux(va(p), pa(p), ratioB, Crossing(k, b, vb, pbc, Upwind(a, va, p)), ratioC,
                         Crossing(k, c, vc, pcb, Upwind(a, va, p)))
  }

  function Net(f: Field, axis: nat, p: Point): real
    requires axis < 3
  {
    f(p) - f(Toward(p, axis, 1))
  }

  /** conservative. */
  function Conservative(phi: Field, fx: Field, fy: Field, fz: Field, rx: real, ry: real, rz: real): Field {
    (p: Point) => phi(p) + (Net(fx, 0, p) * rx + Net(fy, 1, p) * ry + Net(fz, 2, p) * rz)
  }

  // ------------------------------------------------------------------
  // The kernel chain of one time step
  // ------------------------------------------------------------------

  datatype Flow = Flow(k: Scheme, vx: Field, vy: Field, vz: Field, dt: real, dx: real, dy: real, dz: real) {
    predicate Good() { dx > 0.0 && dy > 0.0 && dz > 0.0 }

    function V(axis: nat): Field
      requires axis < 3
    {
      if axis == 0 then vx else if axis == 1 then vy else vz
    }

    function Ratio(axis: nat): real
      requires Good() && axis < 3
    {
      if axis == 0 then dt / dx else if axis == 1 then dt / dy else dt / dz
    }

    function Edge(axis: nat, phi: Field): Field
      requires Good() && axis < 3
    {
      EdgeState(k, axis, phi, V(axis), Slope4(k, axis, phi, Slope2(k, axis, phi)), Ratio(axis))
    }

    function Corrected(a: nat, b: nat, phi: Field): Field
      requires Good() && a < 3 && b < 3
    {
      Transverse(k, a, b, V(a), V(b), Edge(a, phi), Edge(b, phi), Ratio(b))
    }

    function Flux(a: nat, phi: Field): Field
      requires Good() && a < 3
    {
      var b, c := First(a), Second(a);
      CreateFlux(k, a, b, c, V(a), V(b), V(c), Edge(a, phi), Corrected(b, c, phi), Corrected(c, b, phi), Ratio(b),
                 Ratio(c))
    }

    function Advance(phi: Field): Field
      requires Good()
    {
      Conservative(phi, Flux(0, phi), Flux(1, phi), Flux(2, phi), Ratio(0), Ratio(1), Ratio(2))
    }
  }

  /** The two other axes. */
  function First(a: nat): nat { if a == 0 then 1 else 0 }
  function Second(a: nat): nat { if a == 2 then 1 else 2 }

  /** Under the CFL condition at a face, its longitudinal state lies between the
      values of the two cells it separates. */
  lemma EdgeBetween(flow: Flow, axis: nat, phi: Field, p: Point)
    requires flow.k == SourceScheme() && flow.Good() && axis < 3
    requires flow.Ratio(axis) >= 0.0 && K.Abs(flow.Ratio(axis) * flow.V(axis)(p)) <= 1.0
    ensures K.Between(flow.Edge(axis, phi)(p), phi(Toward(p, axis, -1)), phi(p))
  {
    var below := Toward(p, axis, -1);
    var dq := Slope2(flow.k, axis, phi);
    var slope := Slope4(flow.k, axis, phi, dq);
    assert Toward(below, axis, 1) == p;
    K.FourthOrderBounds(Left(axis, phi, p), Right(axis, phi, p), dq(Toward(p, axis, 1)), dq(Toward(p, axis, -1)));
    K.FourthOrderBounds(Left(axis, phi, below), Right(axis, phi, below), dq(Toward(below, axis, 1)),
                        dq(Toward(below, axis, -1)));
    K.EdgeValueBetween(flow.V(axis)(p), flow.Ratio(axis), phi(p), phi(below), slope(p), slope(below));
  }

  // ------------------------------------------------------------------
  // A uniform field
  // ------------------------------------------------------------------

  ghost predicate Uniform(f: Field, c: real) { forall p: Point :: f(p) == c }

  lemma UniformSlope2(k: Scheme, axis: nat, q: Field, c: real)
    requires FlatSlopes(k) && axis < 3 && Uniform(q, c)
    ensures Uniform(Slope2(k, axis, q), 0.0)
  {
    forall p: Point ensures Slope2(k, axis, q)(p) == 0.0 {
      assert Left(axis, q, p) == 0.0 && Right(axis, q, p) == 0.0;
    }
  }

  lemma UniformSlope4(k: Scheme, axis: nat, q: Field, dq: Field, c: real)
    requires FlatSlopes(k) && axis < 3 && Uniform(q, c) && Uniform(dq, 0.0)
    ensures Uniform(Slope4(k, axis, q, dq), 0.0)
  {
    forall p: Point ensures Slope4(k, axis, q, dq)(p) == 0.0 {
      assert Left(axis, q, p) == 0.0 && Right(axis, q, p) == 0.0;
      assert dq(Toward(p, axis, 1)) == 0.0 && dq(Toward(p, axis, -1)) == 0.0;
    }
  }

  lemma UniformEdgeState(k: Scheme, axis: nat, phi: Field, v: Field, slope: Field, ratio: real, c: real)
    requires Flat(k) && axis < 3 && Uniform(phi, c) && Uniform(slope, 0.0)
    ensures Uniform(EdgeState(k, axis, phi, v, slope, ratio), c)
  {
    forall p: Point ensures EdgeState(k, axis, phi, v, slope, ratio)(p) == c {
      var below := Toward(p, axis, -1);
      assert phi(p) == c && phi(below) == c && slope(p) == 0.0 && slope(below) == 0.0;
      assert FlatEdge(k, v(p), ratio, c);
    }
  }

  lemma UniformEdge(flow: Flow, axis: nat, phi: Field, c: real)
    requires Flat(flow.k) && flow.Good() && axis < 3 && Uniform(phi, c)
    ensures Uniform(flow.Edge(axis, phi), c)
  {
    UniformSlope2(flow.k, axis, phi, c);
    UniformSlope4(flow.k, axis, phi, Slope2(flow.k, axis, phi), c);
    UniformEdgeState(flow.k, axis, phi, flow.V(axis), Slope4(flow.k, axis, phi, Slope2(flow.k, axis, phi)),
                     flow.Ratio(axis), c);
  }

  lemma UniformCrossing(k: Scheme, axis: nat, v: Field, state: Field, c: real, p: Point)
    requires Flat(k) && axis < 3 && Uniform(state, c)
    ensures Crossing(k, axis, v, state, p) == 0.0
  {
    assert state(p) == c && state(Toward(p, axis, 1)) == c;
    assert FlatCross(k, v(Toward(p, axis, 1)), v(p), c);
  }

  lemma UniformTransverse(k: Scheme, a: nat, b: nat, va: Field, vb: Field, pa: Field, pb: Field, ratioB: real, c: real)
    requires Flat(k) && a < 3 && b < 3 && Uniform(pa, c) && Uniform(pb, c)
    ensures Uniform(Transverse(k, a, b, va, vb, pa, pb, ratioB), c)
  {
    forall p: Point ensures Transverse(k, a, b, va, vb, pa, pb, ratioB)(p) == c {
      UniformCrossing(k, b, vb, pb, c, Upwind(a, va, p));
      assert pa(p) == c && FlatTransverse(k, ratioB, c);
    }
  }

  /** A flux that is the velocity times one value. */
  ghost predicate Carries(f: Field, v: Field, c: real) { forall p: Point :: f(p) == v(p) * c }

  lemma UniformCreate(k: Scheme, a: nat, b: nat, d: nat, va: Field, vb: Field, vd: Field, pa: Field, pbd: Field,
                      pdb: Field, ratioB: real, ratioD: real, c: real)
    requires Flat(k) && a < 3 && b < 3 && d < 3 && Uniform(pa, c) && Uniform(pbd, c) && Uniform(pdb, c)
    ensures Carries(CreateFlux(k, a, b, d, va, vb, vd, pa, pbd, pdb, ratioB, ratioD), va, c)
  {
    forall p: Point ensures CreateFlux(k, a, b, d, va, vb, vd, pa, pbd, pdb, ratioB, ratioD)(p) == va(p) * c {
      UniformCrossing(k, b, vb, pbd, c, Upwind(a, va, p));
      UniformCrossing(k, d, vd, pdb, c, Upwind(a, va, p));
      assert pa(p) == c && FlatFlux(k, va(p), c, ratioB, ratioD);
    }
  }

  lemma UniformCorrected(flow: Flow, a: nat, b: nat, phi: Field, c: real)
    requires Flat(flow.k) && flow.Good() && a < 3 && b < 3 && Uniform(phi, c)
    ensures Uniform(flow.Corrected(a, b, phi), c)
  {
    UniformEdge(flow, a, phi, c);
    UniformEdge(flow, b, phi, c);
    UniformTransverse(flow.k, a, b, flow.V(a), flow.V(b), flow.Edge(a, phi), flow.Edge(b, phi), flow.Ratio(b), c);
  }

  /** The flux of a uniform field is the velocity times its value. */
  lemma UniformFlux(flow: Flow, a: nat, v: Field, phi: Field, c: real)
    requires Flat(flow.k) && flow.Good() && a < 3 && v == flow.V(a) && Uniform(phi, c)
    ensures Carries(flow.Flux(a, phi), v, c)
  {
    var b, d := First(a), Second(a);
    UniformEdge(flow, a, phi, c);
    UniformCorrected(flow, b, d, phi, c);
    UniformCorrected(flow, d, b, phi, c);
    UniformCreate(flow.k, a, b, d, flow.V(a), flow.V(b), flow.V(d), flow.Edge(a, phi), flow.Corrected(b, d, phi),
                  flow.Corrected(d, b, phi), flow.Ratio(b), flow.Ratio(d), c);
  }

  /** Net inflow of a cell over one step. */
  function Inflow(vx: Field, vy: Field, vz: Field, rx: real, ry: real, rz: real, p: Point): real {
    Net(vx, 0, p) * rx + Net(vy, 1, p) * ry + Net(vz, 2, p) * rz
  }

  lemma Factor(c: real, a: real, b: real, r: real)
    ensures (a * c - b * c) * r == c * ((a - b) * r)
  {
    assert a * c - b * c == c * (a - b);
  }

  lemma CarriedNet(f: Field, v: Field, c: real, axis: nat, r: real, p: Point)
    requires Carries(f, v, c) && axis < 3
    ensures Net(f, axis, p) * r == c * (Net(v, axis, p) * r)
  {
    assert f(p) == v(p) * c && f(Toward(p, axis, 1)) == v(Toward(p, axis, 1)) * c;
    Factor(c, v(p), v(Toward(p, axis, 1)), r);
  }

  lemma ConservativeAt(phi: Field, fx: Field, fy: Field, fz: Field, rx: real, ry: real, rz: real, p: Point)
    ensures Conservative(phi, fx, fy, fz, rx, ry, rz)(p)
      == phi(p) + (Net(fx, 0, p) * rx + Net(fy, 1, p) * ry + Net(fz, 2, p) * rz)
  {
  }

  lemma Gather(c: real, a: real, b: real, d: real)
    ensures c * a + c * b + c * d == c * (a + b + d)
  {
  }

  /** The update of a uniform field from fluxes that carry it. */
  lemma CarriedStep(phi: Field, fx: Field, fy: Field, fz: Field, vx: Field, vy: Field, vz: Field, c: real,
                    rx: real, ry: real, rz: real, p: Point)
    requires Uniform(phi, c) && Carries(fx, vx, c) && Carries(fy, vy, c) && Carries(fz, vz, c)
    ensures Conservative(phi, fx, fy, fz, rx, ry, rz)(p) == c + c * Inflow(vx, vy, vz, rx, ry, rz, p)
  {
    CarriedNet(fx, vx, c, 0, rx, p);
    CarriedNet(fy, vy, c, 1, ry, p);
    CarriedNet(fz, vz, c, 2, rz, p);
    ConservativeAt(phi, fx, fy, fz, rx, ry, rz, p);
    Gather(c, Net(vx, 0, p) * rx, Net(vy, 1, p) * ry, Net(vz, 2, p) * rz);
  }

  lemma ZeroProduct(c: real, r: real)
    ensures c + c * r == c <==> c == 0.0 || r == 0.0
  {
  }

  ghost predicate DivergenceFree(vx: Field, vy: Field, vz: Field, rx: real, ry: real, rz: real) {
    forall p: Point :: Inflow(vx, vy, vz, rx, ry, rz, p) == 0.0
  }

  lemma CarriedFixedIff(next: Field, phi: Field, fx: Field, fy: Field, fz: Field, vx: Field, vy: Field, vz: Field,
                        c: real, rx: real, ry: real, rz: real)
    requires next == Conservative(phi, fx, fy, fz, rx, ry, rz)
    requires Uniform(phi, c) && Carries(fx, vx, c) && Carries(fy, vy, c) && Carries(fz, vz, c)
    ensures Uniform(next, c) <==> c == 0.0 || DivergenceFree(vx, vy, vz, rx, ry, rz)
  {
    forall p: Point ensures next(p) == c <==> c == 0.0 || Inflow(vx, vy, vz, rx, ry, rz, p) == 0.0 {
      CarriedStep(phi, fx, fy, fz, vx, vy, vz, c, rx, ry, rz, p);
      ZeroProduct(c, Inflow(vx, vy, vz, rx, ry, rz, p));
    }
    if Uniform(next, c) && c != 0.0 {
      forall p: Point ensures Inflow(vx, vy, vz, rx, ry, rz, p) == 0.0 {
        assert next(p) == c;
      }
    }
  }

  /** A uniform field is a fixed point of the whole chain exactly when it is
      zero or the face velocities are discretely divergence-free. */
  lemma UniformFixedIff(flow: Flow, phi: Field, c: real)
    requires Flat(flow.k) && flow.Good() && Uniform(phi, c)
    ensures Uniform(flow.Advance(phi), c) <==>
      c == 0.0 || DivergenceFree(flow.vx, flow.vy, flow.vz, flow.Ratio(0), flow.Ratio(1), flow.Ratio(2))
  {
    UniformFlux(flow, 0, flow.vx, phi, c);
    UniformFlux(flow, 1, flow.vy, phi, c);
    UniformFlux(flow, 2, flow.vz, phi, c);
    CarriedFixedIff(flow.Advance(phi), phi, flow.Flux(0, phi), flow.Flux(1, phi), flow.Flux(2, phi), flow.vx, flow.vy,
                    flow.vz, c,
                    flow.Ratio(0), flow.Ratio(1), flow.Ratio(2));
  }

  // ------------------------------------------------------------------
  // Face velocities from a stream function
  // ------------------------------------------------------------------

  type Stream = (int, int) -> real

  /** get_face_velocity_x. */
  function StreamX(psi: Stream, dy: real): Field
    requires dy > 0.0
  {
    (p: Point) =>
      -((psi(p.x, p.y + 1) + psi(p.x - 1, p.y + 1)) - (psi(p.x, p.y - 1) + psi(p.x - 1, p.y - 1))) * (0.25 / dy)
  }

  /** get_face_velocity_y. */
  function StreamY(psi: Stream, dx: real): Field
    requires dx > 0.0
  {
    (p: Point) =>
      ((psi(p.x + 1, p.y) + psi(p.x + 1, p.y - 1)) - (psi(p.x - 1, p.y) + psi(p.x - 1, p.y - 1))) * (0.25 / dx)
  }

  /** The three face velocities for any psi (z: none). */
  function StreamFlow(k: Scheme, psi: Stream, dt: real, dx: real, dy: real, dz: real): Flow
    requires dx > 0.0 && dy > 0.0 && dz > 0.0
  {
    Flow(k, StreamX(psi, dy), StreamY(psi, dx), (p: Point) => 0.0, dt, dx, dy, dz)
  }

  lemma Spread(a: real, b: real, h: real)
    ensures a * h - b * h == (a - b) * h
  {
  }

  lemma Opposite(t: real, dt: real, dx: real, dy: real)
    requires dx > 0.0 && dy > 0.0
    ensures (t * (0.25 / dy)) * (dt / dx) + (-t * (0.25 / dx)) * (dt / dy) == 0.0
  {
    var ix, iy := 1.0 / dx, 1.0 / dy;
    assert 0.25 / dy == 0.25 * iy && 0.25 / dx == 0.25 * ix && dt / dx == dt * ix && dt / dy == dt * iy;
    assert (t * (0.25 * iy)) * (dt * ix) == 0.25 * (t * dt * ix * iy);
    assert (-t * (0.25 * ix)) * (dt * iy) == -0.25 * (t * dt * ix * iy);
  }

  /** They are discretely divergence-free. */
  lemma StreamDivergenceFree(k: Scheme, psi: Stream, dt: real, dx: real, dy: real, dz: real, p: Point)
    requires dx > 0.0 && dy > 0.0 && dz > 0.0
    ensures var f := StreamFlow(k, psi, dt, dx, dy, dz);
      Inflow(f.vx, f.vy, f.vz, f.Ratio(0), f.Ratio(1), f.Ratio(2), p) == 0.0
  {
    var flow := StreamFlow(k, psi, dt, dx, dy, dz);
    var i, j := p.x, p.y;
    var twist := psi(i + 1, j + 1) - psi(i + 1, j - 1) - psi(i - 1, j + 1) + psi(i - 1, j - 1);
    var hx, hy := 0.25 / dx, 0.25 / dy;
    assert Net(flow.vx, 0, p) == twist * hy by {
      Spread(-((psi(i, j + 1) + psi(i - 1, j + 1)) - (psi(i, j - 1) + psi(i - 1, j - 1))),
             -((psi(i + 1, j + 1) + psi(i, j + 1)) - (psi(i + 1, j - 1) + psi(i, j - 1))), hy);
    }
    assert Net(flow.vy, 1, p) == -twist * hx by {
      Spread((psi(i + 1, j) + psi(i + 1, j - 1)) - (psi(i - 1, j) + psi(i - 1, j - 1)),
             (psi(i + 1, j + 1) + psi(i + 1, j)) - (psi(i - 1, j + 1) + psi(i - 1, j)), hx);
    }
    Opposite(twist, dt, dx, dy);
  }

  /** Whatever psi is, a uniform concentration stays uniform under the source's
      kernels. */
  lemma StreamKeepsUniform(psi: Stream, dt: real, dx: real, dy: real, dz: real, phi: Field, c: real)
    requires dx > 0.0 && dy > 0.0 && dz > 0.0 && Uniform(phi, c)
    ensures Uniform(StreamFlow(SourceScheme(), psi, dt, dx, dy, dz).Advance(phi), c)
  {
    var flow := StreamFlow(SourceScheme(), psi, dt, dx, dy, dz);
    SourceIsFlat();
    forall p: Point ensures Inflow(flow.vx, flow.vy, flow.vz, flow.Ratio(0), flow.Ratio(1), flow.Ratio(2), p) == 0.0 {
      StreamDivergenceFree(SourceScheme(), psi, dt, dx, dy, dz, p);
    }
    UniformFixedIff(flow, phi, c);
  }

  // ------------------------------------------------------------------
  // Periodicity
  // ------------------------------------------------------------------

  ghost predicate Periodic(f: Field, n: Point) {
    forall p: Point, b: nat | b < 3 :: f(Toward(p, b, n.Axis(b))) == f(p)
  }

  /** A shift by the period changes no value near a point either. */
  lemma Near(f: Field, n: Point, p: Point, b: nat, a: nat, d: int)
    requires Periodic(f, n) && a < 3 && b < 3
    ensures f(Toward(Toward(p, b, n.Axis(b)), a, d)) == f(Toward(p, a, d))
  {
    assert Toward(Toward(p, b, n.Axis(b)), a, d) == Toward(Toward(p, a, d), b, n.Axis(b));
  }

  lemma PeriodicSlope2(k: Scheme, axis: nat, q: Field, n: Point)
    requires axis < 3 && Periodic(q, n)
    ensures Periodic(Slope2(k, axis, q), n)
  {
    forall p: Point, b: nat | b < 3 ensures Slope2(k, axis, q)(Toward(p, b, n.Axis(b))) == Slope2(k, axis, q)(p) {
      Near(q, n, p, b, axis, 1);
      Near(q, n, p, b, axis, -1);
      assert q(Toward(p, b, n.Axis(b))) == q(p);
      assert Left(axis, q, Toward(p, b, n.Axis(b))) == Left(axis, q, p);
      assert Right(axis, q, Toward(p, b, n.Axis(b))) == Right(axis, q, p);
    }
  }

  lemma PeriodicSlope4(k: Scheme, axis: nat, q: Field, dq: Field, n: Point)
    requires axis < 3 && Periodic(q, n) && Periodic(dq, n)
    ensures Periodic(Slope4(k, axis, q, dq), n)
  {
    forall p: Point, b: nat | b < 3
      ensures Slope4(k, axis, q, dq)(Toward(p, b, n.Axis(b))) == Slope4(k, axis, q, dq)(p)
    {
      Near(q, n, p, b, axis, 1);
      Near(q, n, p, b, axis, -1);
      Near(dq, n, p, b, axis, 1);
      Near(dq, n, p, b, axis, -1);
    }
  }

  lemma PeriodicEdgeState(k: Scheme, axis: nat, phi: Field, v: Field, slope: Field, ratio: real, n: Point)
    requires axis < 3 && Periodic(phi, n) && Periodic(v, n) && Periodic(slope, n)
    ensures Periodic(EdgeState(k, axis, phi, v, slope, ratio), n)
  {
    var e := EdgeState(k, axis, phi, v, slope, ratio);
    forall p: Point, b: nat | b < 3 ensures e(Toward(p, b, n.Axis(b))) == e(p) {
      Near(phi, n, p, b, axis, -1);
      Near(slope, n, p, b, axis, -1);
    }
  }

  /** Crossing terms and upwind cells shift along. */
  lemma CrossingShift(k: Scheme, a: nat, va: Field, b: nat, v: Field, state: Field, n: Point, p: Point, s: nat)
    requires a < 3 && b < 3 && s < 3 && Periodic(va, n) && Periodic(v, n) && Periodic(state, n)
    ensures Crossing(k, b, v, state, Upwind(a, va, Toward(p, s, n.Axis(s))))
      == Crossing(k, b, v, state, Upwind(a, va, p))
  {
    var up := Upwind(a, va, p);
    assert Upwind(a, va, Toward(p, s, n.Axis(s))) == Toward(up, s, n.Axis(s));
    Near(v, n, up, s, b, 1);
    Near(state, n, up, s, b, 1);
  }

  lemma PeriodicTransverse(k: Scheme, a: nat, b: nat, va: Field, vb: Field, pa: Field, pb: Field, ratioB: real,
                           n: Point)
    requires a < 3 && b < 3 && Periodic(va, n) && Periodic(vb, n) && Periodic(pa, n) && Periodic(pb, n)
    ensures Periodic(Transverse(k, a, b, va, vb, pa, pb, ratioB), n)
  {
    var t := Transverse(k, a, b, va, vb, pa, pb, ratioB);
    forall p: Point, s: nat | s < 3 ensures t(Toward(p, s, n.Axis(s))) == t(p) {
      CrossingShift(k, a, va, b, vb, pb, n, p, s);
    }
  }

  lemma PeriodicCreate(k: Scheme, a: nat, b: nat, d: nat, va: Field, vb: Field, vd: Field, pa: Field, pbd: Field,
                       pdb: Field, ratioB: real, ratioD: real, n: Point)
    requires a < 3 && b < 3 && d < 3 && Periodic(va, n) && Periodic(vb, n) && Periodic(vd, n)
    requires Periodic(pa, n) && Periodic(pbd, n) && Periodic(pdb, n)
    ensures Periodic(CreateFlux(k, a, b, d, va, vb, vd, pa, pbd, pdb, ratioB, ratioD), n)
  {
    var f := CreateFlux(k, a, b, d, va, vb, vd, pa, pbd, pdb, ratioB, ratioD);
    forall p: Point, s: nat | s < 3 ensures f(Toward(p, s, n.Axis(s))) == f(p) {
      CrossingShift(k, a, va, b, vb, pbd, n, p, s);
      CrossingShift(k, a, va, d, vd, pdb, n, p, s);
    }
  }

  ghost predicate PeriodicFlow(flow: Flow, n: Point) {
    Periodic(flow.vx, n) && Periodic(flow.vy, n) && Periodic(flow.vz, n)
  }

  lemma PeriodicV(flow: Flow, a: nat, n: Point)
    requires PeriodicFlow(flow, n) && a < 3
    ensures Periodic(flow.V(a), n)
  {
  }

  lemma PeriodicEdge(flow: Flow, axis: nat, phi: Field, n: Point)
    requires flow.Good() && PeriodicFlow(flow, n) && axis < 3 && Periodic(phi, n)
    ensures Periodic(flow.Edge(axis, phi), n)
  {
    PeriodicV(flow, axis, n);
    PeriodicSlope2(flow.k, axis, phi, n);
    PeriodicSlope4(flow.k, axis, phi, Slope2(flow.k, axis, phi), n);
    PeriodicEdgeState(flow.k, axis, phi, flow.V(axis), Slope4(flow.k, axis, phi, Slope2(flow.k, axis, phi)),
                      flow.Ratio(axis), n);
  }

  lemma PeriodicCorrected(flow: Flow, a: nat, b: nat, phi: Field, n: Point)
    requires flow.Good() && PeriodicFlow(flow, n) && a < 3 && b < 3 && Periodic(phi, n)
    ensures Periodic(flow.Corrected(a, b, phi), n)
  {
    PeriodicV(flow, a, n);
    PeriodicV(flow, b, n);
    PeriodicEdge(flow, a, phi, n);
    PeriodicEdge(flow, b, phi, n);
    PeriodicTransverse(flow.k, a, b, flow.V(a), flow.V(b), flow.Edge(a, phi), flow.Edge(b, phi), flow.Ratio(b), n);
  }

  /** The fluxes of periodic data are periodic. */
  lemma PeriodicFlux(flow: Flow, a: nat, phi: Field, n: Point)
    requires flow.Good() && PeriodicFlow(flow, n) && a < 3 && Periodic(phi, n)
    ensures Periodic(flow.Flux(a, phi), n)
  {
    var b, d := First(a), Second(a);
    PeriodicV(flow, a, n);
    PeriodicV(flow, b, n);
    PeriodicV(flow, d, n);
    PeriodicEdge(flow, a, phi, n);
    PeriodicCorrected(flow, b, d, phi, n);
    PeriodicCorrected(flow, d, b, phi, n);
    PeriodicCreate(flow.k, a, b, d, flow.V(a), flow.V(b), flow.V(d), flow.Edge(a, phi), flow.Corrected(b, d, phi),
                   flow.Corrected(d, b, phi), flow.Ratio(b), flow.Ratio(d), n);
  }

  ghost predicate PeriodicStream(psi: Stream, n: Point) {
    forall i: int, j: int :: psi(i + n.x, j) == psi(i, j) && psi(i, j + n.y) == psi(i, j)
  }

  lemma StreamCorner(psi: Stream, n: Point, p: Point, b: nat, di: int, dj: int)
    requires PeriodicStream(psi, n) && b < 3
    ensures psi(Toward(p, b, n.Axis(b)).x + di, Toward(p, b, n.Axis(b)).y + dj) == psi(p.x + di, p.y + dj)
  {
    var i, j := p.x + di, p.y + dj;
    assert psi(i + n.x, j) == psi(i, j) && psi(i, j + n.y) == psi(i, j);
  }

  lemma StreamXPeriodic(psi: Stream, dy: real, n: Point)
    requires dy > 0.0 && PeriodicStream(psi, n)
    ensures Periodic(StreamX(psi, dy), n)
  {
    forall p: Point, b: nat | b < 3 ensures StreamX(psi, dy)(Toward(p, b, n.Axis(b))) == StreamX(psi, dy)(p) {
      StreamCorner(psi, n, p, b, 0, 1);
      StreamCorner(psi, n, p, b, -1, 1);
      StreamCorner(psi, n, p, b, 0, -1);
      StreamCorner(psi, n, p, b, -1, -1);
    }
  }

  lemma StreamYPeriodic(psi: Stream, dx: real, n: Point)
    requires dx > 0.0 && PeriodicStream(psi, n)
    ensures Periodic(StreamY(psi, dx), n)
  {
    forall p: Point, b: nat | b < 3 ensures StreamY(psi, dx)(Toward(p, b, n.Axis(b))) == StreamY(psi, dx)(p) {
      StreamCorner(psi, n, p, b, 1, 0);
      StreamCorner(psi, n, p, b, 1, -1);
      StreamCorner(psi, n, p, b, -1, 0);
      StreamCorner(psi, n, p, b, -1, -1);
    }
  }

  /** A periodic psi gives periodic face velocities. */
  lemma StreamIsPeriodic(k: Scheme, psi: Stream, dt: real, dx: real, dy: real, dz: real, n: Point)
    requires dx > 0.0 && dy > 0.0 && dz > 0.0 && PeriodicStream(psi, n)
    ensures PeriodicFlow(StreamFlow(k, psi, dt, dx, dy, dz), n)
  {
    StreamXPeriodic(psi, dy, n);
    StreamYPeriodic(psi, dx, n);
  }

  // ------------------------------------------------------------------
  // Conservation
  // ------------------------------------------------------------------

  function Sum(f: int -> real, n: nat): real {
    if n == 0 then 0.0 else Sum(f, n - 1) + f(n - 1)
  }

  function Row(f: Field, n: Point, y: int, z: int): real
    requires n.x >= 0
  {
    Sum((x: int) => f(Point(x, y, z)), n.x)
  }

  function Plane(f: Field, n: Point, z: int): real
    requires n.x >= 0 && n.y >= 0
  {
    Sum((y: int) => Row(f, n, y, z), n.y)
  }

  /** The total of a cell field over the domain [0, n). */
  function Total(f: Field, n: Point): real
    requires n.x >= 0 && n.y >= 0 && n.z >= 0
  {
    Sum((z: int) => Plane(f, n, z), n.z)
  }

  lemma {:induction false} SumDiffers(f: int -> real, g: int -> real, h: int -> real, h': int -> real, n: nat)
    requires forall i: int :: 0 <= i < n ==> f(i) == g(i) + h(i) - h'(i)
    ensures Sum(f, n) == Sum(g, n) + Sum(h, n) - Sum(h', n)
    decreases n
  {
    if n > 0 { SumDiffers(f, g, h, h', n - 1); }
  }

  /** Shifting the summand by one. */
  lemma {:induction false} SumShift(h: int -> real, h': int -> real, n: nat)
    requires forall i: int :: 0 <= i < n ==> h'(i) == h(i + 1)
    ensures Sum(h', n) == Sum(h, n) + h(n) - h(0)
    decreases n
  {
    if n > 0 { SumShift(h, h', n - 1); }
  }

  lemma {:induction false} SumEqual(f: int -> real, g: int -> real, n: nat)
    requires forall i: int :: 0 <= i < n ==> f(i) == g(i)
    ensures Sum(f, n) == Sum(g, n)
    decreases n
  {
    if n > 0 { SumEqual(f, g, n - 1); }
  }

  function Next(f: Field, axis: nat): Field
    requires axis < 3
  {
    (p: Point) => f(Toward(p, axis, 1))
  }

  /** The total of a periodic face field is the total of its upper faces. */
  lemma TotalNext(f: Field, axis: nat, n: Point)
    requires n.x >= 0 && n.y >= 0 && n.z >= 0 && axis < 3 && Periodic(f, n)
    ensures Total(Next(f, axis), n) == Total(f, n)
  {
    var s := Next(f, axis);
    if axis == 2 {
      forall z: int ensures Plane(s, n, z) == Plane(f, n, z + 1) { PlaneNext(f, n, z); }
      assert Plane(f, n, n.z) == Plane(f, n, 0) by { PlanePeriodic(f, n); }
      SumShift((z: int) => Plane(f, n, z), (z: int) => Plane(s, n, z), n.z);
    } else {
      forall z: int ensures Plane(s, n, z) == Plane(f, n, z) { PlaneKeeps(f, axis, n, z); }
      SumEqual((z: int) => Plane(s, n, z), (z: int) => Plane(f, n, z), n.z);
    }
  }

  lemma PlaneNext(f: Field, n: Point, z: int)
    requires n.x >= 0 && n.y >= 0
    ensures Plane(Next(f, 2), n, z) == Plane(f, n, z + 1)
  {
    var s := Next(f, 2);
    forall y: int ensures Row(s, n, y, z) == Row(f, n, y, z + 1) {
      forall x: int ensures s(Point(x, y, z)) == f(Point(x, y, z + 1)) {
        assert Toward(Point(x, y, z), 2, 1) == Point(x, y, z + 1);
      }
      SumEqual((x: int) => s(Point(x, y, z)), (x: int) => f(Point(x, y, z + 1)), n.x);
    }
    SumEqual((y: int) => Row(s, n, y, z), (y: int) => Row(f, n, y, z + 1), n.y);
  }

  lemma PlanePeriodic(f: Field, n: Point)
    requires n.x >= 0 && n.y >= 0 && n.z >= 0 && Periodic(f, n)
    ensures Plane(f, n, n.z) == Plane(f, n, 0)
  {
    forall y: int ensures Row(f, n, y, n.z) == Row(f, n, y, 0) {
      forall x: int ensures f(Point(x, y, n.z)) == f(Point(x, y, 0)) {
        assert Toward(Point(x, y, 0), 2, n.Axis(2)) == Point(x, y, n.z);
      }
      SumEqual((x: int) => f(Point(x, y, n.z)), (x: int) => f(Point(x, y, 0)), n.x);
    }
    SumEqual((y: int) => Row(f, n, y, n.z), (y: int) => Row(f, n, y, 0), n.y);
  }

  lemma PlaneKeeps(f: Field, axis: nat, n: Point, z: int)
    requires n.x >= 0 && n.y >= 0 && axis < 2 && Periodic(f, n)
    ensures Plane(Next(f, axis), n, z) == Plane(f, n, z)
  {
    var s := Next(f, axis);
    if axis == 1 {
      forall y: int ensures Row(s, n, y, z) == Row(f, n, y + 1, z) {
        forall x: int ensures s(Point(x, y, z)) == f(Point(x, y + 1, z)) {
          assert Toward(Point(x, y, z), 1, 1) == Point(x, y + 1, z);
        }
        SumEqual((x: int) => s(Point(x, y, z)), (x: int) => f(Point(x, y + 1, z)), n.x);
      }
      assert Row(f, n, n.y, z) == Row(f, n, 0, z) by {
        forall x: int ensures f(Point(x, n.y, z)) == f(Point(x, 0, z)) {
          assert Toward(Point(x, 0, z), 1, n.Axis(1)) == Point(x, n.y, z);
        }
        SumEqual((x: int) => f(Point(x, n.y, z)), (x: int) => f(Point(x, 0, z)), n.x);
      }
      SumShift((y: int) => Row(f, n, y, z), (y: int) => Row(s, n, y, z), n.y);
    } else {
      forall y: int ensures Row(s, n, y, z) == Row(f, n, y, z) {
        assert Toward(Point(0, y, z), 0, n.Axis(0)) == Point(n.x, y, z);
        forall x: int ensures s(Point(x, y, z)) == f(Point(x + 1, y, z)) {
          assert Toward(Point(x, y, z), 0, 1) == Point(x + 1, y, z);
        }
        SumShift((x: int) => f(Point(x, y, z)), (x: int) => s(Point(x, y, z)), n.x);
      }
      SumEqual((y: int) => Row(s, n, y, z), (y: int) => Row(f, n, y, z), n.y);
    }
  }

  /** f is g plus the difference of h and h', in every cell. */
  ghost predicate DiffersAll(f: Field, g: Field, h: Field, h': Field) {
    forall p: Point :: f(p) == g(p) + h(p) - h'(p)
  }

  lemma TotalDiffers(f: Field, g: Field, h: Field, h': Field, n: Point)
    requires n.x >= 0 && n.y >= 0 && n.z >= 0 && DiffersAll(f, g, h, h')
    ensures Total(f, n) == Total(g, n) + Total(h, n) - Total(h', n)
  {
    forall z: int ensures Plane(f, n, z) == Plane(g, n, z) + Plane(h, n, z) - Plane(h', n, z) {
      forall y: int ensures Row(f, n, y, z) == Row(g, n, y, z) + Row(h, n, y, z) - Row(h', n, y, z) {
        SumDiffers((x: int) => f(Point(x, y, z)), (x: int) => g(Point(x, y, z)), (x: int) => h(Point(x, y, z)),
                   (x: int) => h'(Point(x, y, z)), n.x);
      }
      SumDiffers((y: int) => Row(f, n, y, z), (y: int) => Row(g, n, y, z), (y: int) => Row(h, n, y, z),
                 (y: int) => Row(h', n, y, z), n.y);
    }
    SumDiffers((z: int) => Plane(f, n, z), (z: int) => Plane(g, n, z), (z: int) => Plane(h, n, z),
               (z: int) => Plane(h', n, z), n.z);
  }

  function Scaled(f: Field, r: real): Field { (p: Point) => f(p) * r }

  lemma ScaledPeriodic(f: Field, r: real, n: Point)
    requires Periodic(f, n)
    ensures Periodic(Scaled(f, r), n)
  {
    forall p: Point, b: nat | b < 3 ensures Scaled(f, r)(Toward(p, b, n.Axis(b))) == Scaled(f, r)(p) {
      assert f(Toward(p, b, n.Axis(b))) == f(p);
    }
  }

  /** One axis of the update. */
  function Moved(phi: Field, flux: Field, axis: nat, r: real): Field
    requires axis < 3
  {
    (p: Point) => phi(p) + Net(flux, axis, p) * r
  }

  lemma MovedDiffers(phi: Field, flux: Field, axis: nat, r: real)
    requires axis < 3
    ensures DiffersAll(Moved(phi, flux, axis, r), phi, Scaled(flux, r), Next(Scaled(flux, r), axis))
  {
    var f, h := Moved(phi, flux, axis, r), Scaled(flux, r);
    forall p: Point ensures f(p) == phi(p) + h(p) - Next(h, axis)(p) {
      Spread(flux(p), flux(Toward(p, axis, 1)), r);
    }
  }

  /** It moves phi around without changing its total. */
  lemma AxisConserves(phi: Field, flux: Field, axis: nat, r: real, n: Point)
    requires n.x >= 0 && n.y >= 0 && n.z >= 0 && axis < 3 && Periodic(flux, n)
    ensures Total(Moved(phi, flux, axis, r), n) == Total(phi, n)
  {
    MovedDiffers(phi, flux, axis, r);
    ScaledPeriodic(flux, r, n);
    TotalDiffers(Moved(phi, flux, axis, r), phi, Scaled(flux, r), Next(Scaled(flux, r), axis), n);
    TotalNext(Scaled(flux, r), axis, n);
  }

  lemma ThreeMoves(phi: Field, fx: Field, fy: Field, fz: Field, rx: real, ry: real, rz: real, p: Point)
    ensures Conservative(phi, fx, fy, fz, rx, ry, rz)(p) == Moved(Moved(Moved(phi, fx, 0, rx), fy, 1, ry), fz, 2, rz)(p)
  {
  }

  lemma {:induction false} TotalEqual(f: Field, g: Field, n: Point)
    requires n.x >= 0 && n.y >= 0 && n.z >= 0 && forall p: Point :: f(p) == g(p)
    ensures Total(f, n) == Total(g, n)
  {
    forall z: int ensures Plane(f, n, z) == Plane(g, n, z) {
      forall y: int ensures Row(f, n, y, z) == Row(g, n, y, z) {
        SumEqual((x: int) => f(Point(x, y, z)), (x: int) => g(Point(x, y, z)), n.x);
      }
      SumEqual((y: int) => Row(f, n, y, z), (y: int) => Row(g, n, y, z), n.y);
    }
    SumEqual((z: int) => Plane(f, n, z), (z: int) => Plane(g, n, z), n.z);
  }

  lemma ConservativeKeepsTotal(next: Field, phi: Field, fx: Field, fy: Field, fz: Field, rx: real, ry: real, rz: real,
                               n: Point)
    requires next == Conservative(phi, fx, fy, fz, rx, ry, rz)
    requires n.x >= 0 && n.y >= 0 && n.z >= 0 && Periodic(fx, n) && Periodic(fy, n) && Periodic(fz, n)
    ensures Total(next, n) == Total(phi, n)
  {
    var one := Moved(phi, fx, 0, rx);
    var two := Moved(one, fy, 1, ry);
    var all := Moved(two, fz, 2, rz);
    forall p: Point ensures next(p) == all(p) {
      ThreeMoves(phi, fx, fy, fz, rx, ry, rz, p);
    }
    TotalEqual(next, all, n);
    AxisConserves(phi, fx, 0, rx, n);
    AxisConserves(one, fy, 1, ry, n);
    AxisConserves(two, fz, 2, rz, n);
  }

  /** One step of the whole chain conserves the total of phi over the periodic
      domain, whatever the face velocities are. */
  lemma StepConserves(flow: Flow, phi: Field, n: Point)
    requires flow.Good() && PeriodicFlow(flow, n) && Periodic(phi, n) && n.x >= 0 && n.y >= 0 && n.z >= 0
    ensures Total(flow.Advance(phi), n) == Total(phi, n)
  {
    PeriodicFlux(flow, 0, phi, n);
    PeriodicFlux(flow, 1, phi, n);
    PeriodicFlux(flow, 2, phi, n);
    ConservativeKeepsTotal(flow.Advance(phi), phi, flow.Flux(0, phi), flow.Flux(1, phi), flow.Flux(2, phi),
                           flow.Ratio(0), flow.Ratio(1), flow.Ratio(2), n);
  }

  lemma PeriodicConservative(next: Field, phi: Field, fx: Field, fy: Field, fz: Field, rx: real, ry: real, rz: real,
                             n: Point)
    requires next == Conservative(phi, fx, fy, fz, rx, ry, rz)
    requires Periodic(phi, n) && Periodic(fx, n) && Periodic(fy, n) && Periodic(fz, n)
    ensures Periodic(next, n)
  {
    forall p: Point, b: nat | b < 3 ensures next(Toward(p, b, n.Axis(b))) == next(p) {
      var q := Toward(p, b, n.Axis(b));
      Near(fx, n, p, b, 0, 1);
      Near(fy, n, p, b, 1, 1);
      Near(fz, n, p, b, 2, 1);
      assert phi(q) == phi(p) && fx(q) == fx(p) && fy(q) == fy(p) && fz(q) == fz(p);
      assert Net(fx, 0, q) == Net(fx, 0, p) && Net(fy, 1, q) == Net(fy, 1, p) && Net(fz, 2, q) == Net(fz, 2, p);
    }
  }

  lemma PeriodicAdvance(flow: Flow, phi: Field, n: Point)
    requires flow.Good() && PeriodicFlow(flow, n) && Periodic(phi, n)
    ensures Periodic(flow.Advance(phi), n)
  {
    PeriodicFlux(flow, 0, phi, n);
    PeriodicFlux(flow, 1, phi, n);
    PeriodicFlux(flow, 2, phi, n);
    PeriodicConservative(flow.Advance(phi), phi, flow.Flux(0, phi), flow.Flux(1, phi), flow.Flux(2, phi),
                         flow.Ratio(0), flow.Ratio(1), flow.Ratio(2), n);
  }

  ghost predicate GoodFlow(flow: Flow, n: Point) { flow.Good() && PeriodicFlow(flow, n) }

  /** Time steps under velocities and step sizes that may change every step. */
  function AdvanceAll(flows: seq<Flow>, phi: Field): Field
    requires forall i :: 0 <= i < |flows| ==> flows[i].Good()
  {
    if flows == [] then phi else AdvanceAll(flows[1..], flows[0].Advance(phi))
  }

  /** Any number of steps conserve the total of phi. */
  lemma {:induction false} RunConserves(flows: seq<Flow>, phi: Field, n: Point)
    requires forall i :: 0 <= i < |flows| ==> flows[i].Good() && GoodFlow(flows[i], n)
    requires Periodic(phi, n) && n.x >= 0 && n.y >= 0 && n.z >= 0
    ensures Total(AdvanceAll(flows, phi), n) == Total(phi, n) && Periodic(AdvanceAll(flows, phi), n)
    decreases |flows|
  {
    if flows != [] {
      StepConserves(flows[0], phi, n);
      PeriodicAdvance(flows[0], phi, n);
      RunConserves(flows[1..], flows[0].Advance(phi), n);
    }
  }
}

/** The slope loops of slope_K.H over arrays with ghost cells. */
module AdvectionLoops {
  import opened Boxes
  import opened Advection
  import K = AdvectionKernels

  /** An Array4: values on a box with lower corner lo. */
  class FArray {
    const lo: Point
    const data: array3<real>

    constructor (lower: Point, nx: nat, ny: nat, nz: nat)
      ensures lo == lower && fresh(data) && data.Length0 == nx && data.Length1 == ny && data.Length2 == nz
    {
      lo := lower;
      data := new real[nx, ny, nz]((_, _, _) => 0.0);
    }

    predicate Has(p: Point) {
      lo.x <= p.x < lo.x + data.Length0 && lo.y <= p.y < lo.y + data.Length1 && lo.z <= p.z < lo.z + data.Length2
    }

    function At(p: Point): real
      requires Has(p)
      reads data
    {
      data[p.x - lo.x, p.y - lo.y, p.z - lo.z]
    }

    method Set(p: Point, v: real)
      requires Has(p)
      modifies data
      ensures forall q: Point :: Has(q) ==> At(q) == if q == p then v else old(At(q))
    {
      data[p.x - lo.x, p.y - lo.y, p.z - lo.z] := v;
    }
  }

  predicate InBox(lo: Point, hi: Point, p: Point) { lo.x <= p.x <= hi.x && lo.y <= p.y <= hi.y && lo.z <= p.z <= hi.z }

  /** Cells of the box before (i, j, k) in the loop order. */
  predicate Passed(p: Point, i: int, j: int, k: int) {
    p.z < k || (p.z == k && (p.y < j || (p.y == j && p.x < i)))
  }

  /** The array holds the field on the box and one cell further along the axis. */
  ghost predicate HoldsAround(a: FArray, f: Field, axis: nat, lo: Point, hi: Point)
    requires axis < 3
    reads a.data
  {
    forall p: Point, d: int :: InBox(lo, hi, p) && -1 <= d <= 1 ==>
      a.Has(Toward(p, axis, d)) && a.At(Toward(p, axis, d)) == f(Toward(p, axis, d))
  }

  /** Passed cells hold the new values, all others what they held. */
  ghost predicate Written(dq: FArray, before: Field, after: Field, lo: Point, hi: Point, i: int, j: int, k: int)
    reads dq.data
  {
    forall p: Point :: dq.Has(p) ==> dq.At(p) == if InBox(lo, hi, p) && Passed(p, i, j, k) then after(p) else before(p)
  }

  /** slopex2, slopey2, slopez2 on the box lo..hi. */
  method SlopeLoop2(axis: nat, lo: Point, hi: Point, dq: FArray, q: FArray, ghost f: Field, ghost before: Field)
    requires axis < 3 && dq.data != q.data && lo.x <= hi.x + 1 && lo.y <= hi.y + 1 && lo.z <= hi.z + 1
    requires HoldsAround(q, f, axis, lo, hi)
    requires forall p: Point :: InBox(lo, hi, p) ==> dq.Has(p)
    requires forall p: Point :: dq.Has(p) ==> dq.At(p) == before(p)
    modifies dq.data
    ensures forall p: Point :: dq.Has(p) ==>
      dq.At(p) == if InBox(lo, hi, p) then Slope2(SourceScheme(), axis, f)(p) else before(p)
  {
    ghost var after := Slope2(SourceScheme(), axis, f);
    for k := lo.z to hi.z + 1
      invariant Written(dq, before, after, lo, hi, lo.x, lo.y, k)
    {
      for j := lo.y to hi.y + 1
        invariant Written(dq, before, after, lo, hi, lo.x, j, k)
      {
        for i := lo.x to hi.x + 1
          invariant Written(dq, before, after, lo, hi, i, j, k)
        {
          var p := Point(i, j, k);
          assert InBox(lo, hi, p);
          assert Toward(p, axis, 0) == p;
          assert q.At(Toward(p, axis, 0)) == f(Toward(p, axis, 0)) && q.At(Toward(p, axis, 1)) == f(Toward(p, axis, 1))
                 && q.At(Toward(p, axis, -1)) == f(Toward(p, axis, -1));
          var dlft := q.At(p) - q.At(Toward(p, axis, -1));
          var drgt := q.At(Toward(p, axis, 1)) - q.At(p);
          assert dlft == Left(axis, f, p) && drgt == Right(axis, f, p);
          var slope := K.SecondOrder(dlft, drgt);
          dq.Set(p, slope);
          assert after(p) == slope;
        }
      }
    }
  }

  /** slopex4, slopey4, slopez4 on the box lo..hi, from second-order slopes. */
  method SlopeLoop4(axis: nat, lo: Point, hi: Point, dq4: FArray, q: FArray, dq: FArray, ghost f: Field,
                    ghost df: Field, ghost before: Field)
    requires axis < 3 && dq4.data != q.data && dq4.data != dq.data && lo.x <= hi.x + 1 && lo.y <= hi.y + 1
    requires lo.z <= hi.z + 1
    requires HoldsAround(q, f, axis, lo, hi) && HoldsAround(dq, df, axis, lo, hi)
    requires forall p: Point :: InBox(lo, hi, p) ==> dq4.Has(p)
    requires forall p: Point :: dq4.Has(p) ==> dq4.At(p) == before(p)
    modifies dq4.data
    ensures forall p: Point :: dq4.Has(p) ==>
      dq4.At(p) == if InBox(lo, hi, p) then Slope4(SourceScheme(), axis, f, df)(p) else before(p)
  {
    ghost var after := Slope4(SourceScheme(), axis, f, df);
    for k := lo.z to hi.z + 1
      invariant Written(dq4, before, after, lo, hi, lo.x, lo.y, k)
    {
      for j := lo.y to hi.y + 1
        invariant Written(dq4, before, after, lo, hi, lo.x, j, k)
      {
        for i := lo.x to hi.x + 1
          invariant Written(dq4, before, after, lo, hi, i, j, k)
        {
          var p := Point(i, j, k);
          assert InBox(lo, hi, p);
          assert Toward(p, axis, 0) == p;
          assert q.At(Toward(p, axis, 0)) == f(Toward(p, axis, 0)) && q.At(Toward(p, axis, 1)) == f(Toward(p, axis, 1))
                 && q.At(Toward(p, axis, -1)) == f(Toward(p, axis, -1));
          assert dq.At(Toward(p, axis, 1)) == df(Toward(p, axis, 1));
          assert dq.At(Toward(p, axis, -1)) == df(Toward(p, axis, -1));
          var dlft := q.At(p) - q.At(Toward(p, axis, -1));
          var drgt := q.At(Toward(p, axis, 1)) - q.At(p);
          assert dlft == Left(axis, f, p) && drgt == Right(axis, f, p);
          var slope := K.FourthOrder(dlft, drgt, dq.At(Toward(p, axis, 1)), dq.At(Toward(p, axis, -1)));
          dq4.Set(p, slope);
          assert after(p) == slope;
        }
      }
    }
  }
}
