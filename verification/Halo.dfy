/** The distributed Gray-Scott step of example/gssimulation/gray-scott.cpp:
    three ordered halo exchanges and the stencil, over a periodic process grid
    (MPI 3.1, section 7.5.6), against the same stencil on the global torus. */
module Halo {
  import opened Boxes
  import opened Matrix
  import opened Decomposition
  import opened Faces
  import opened Lockstep

  // ------------------------------------------------------------------
  // The stencil
  // ------------------------------------------------------------------

  /** A cell and its six neighbours, in the order laplacian adds them. */
  datatype Seven<T> = Seven(west: T, east: T, down: T, up: T, south: T, north: T, center: T)

  /** New u and v of a cell from both stencils and one random sample. */
  type Kernel<!T> = (Seven<T>, Seven<T>, T) -> (T, T)

  /** The random sample of a cell at a time step. */
  type Noise<!T> = (nat, Point) -> T

  datatype Fields<T> = Fields(u: seq<T>, v: seq<T>, u2: seq<T>, v2: seq<T>)

  ghost predicate Sized<T>(f: Fields<T>, s: Point) {
    |f.u| == |f.v| == |f.u2| == |f.v2| == Cells(s)
  }

  function Move(p: Point, dx: int, dy: int, dz: int): Point { Point(p.x + dx, p.y + dy, p.z + dz) }

  lemma AroundLocal(s: Point, p: Point)
    requires Positive3(s) && Interior(s, p)
    ensures Local(s, p) && Local(s, Move(p, -1, 0, 0)) && Local(s, Move(p, 1, 0, 0)) && Local(s, Move(p, 0, -1, 0))
            && Local(s, Move(p, 0, 1, 0)) && Local(s, Move(p, 0, 0, -1)) && Local(s, Move(p, 0, 0, 1))
  {
  }

  function At<T>(data: seq<T>, s: Point, p: Point): T
    requires Positive3(s) && |data| == Cells(s) && Local(s, p)
  {
    L2IRange(s, p);
    data[L2I(s, p)]
  }

  function Around<T>(data: seq<T>, s: Point, p: Point): Seven<T>
    requires Positive3(s) && |data| == Cells(s) && Interior(s, p)
  {
    AroundLocal(s, p);
    Seven(At(data, s, Move(p, -1, 0, 0)), At(data, s, Move(p, 1, 0, 0)), At(data, s, Move(p, 0, -1, 0)),
          At(data, s, Move(p, 0, 1, 0)), At(data, s, Move(p, 0, 0, -1)), At(data, s, Move(p, 0, 0, 1)), At(data, s, p))
  }

  /** calc and the two swaps: interiors are computed, ghosts of the target
      arrays keep whatever they held. */
  function CalcSwap<T>(f: Fields<T>, s: Point, kernel: Kernel<T>, sample: Point -> T): (r: Fields<T>)
    requires Positive3(s) && Sized(f, s)
    ensures Sized(r, s) && r.u2 == f.u && r.v2 == f.v
  {
    var n := Cells(s);
    CornersInRange(LocalBox(s));
    Fields(seq(n, i requires 0 <= i < n =>
             if Interior(s, LocalAt(s, i)) then NewCell(f, s, kernel, sample, LocalAt(s, i)).0 else f.u2[i]),
           seq(n, i requires 0 <= i < n =>
             if Interior(s, LocalAt(s, i)) then NewCell(f, s, kernel, sample, LocalAt(s, i)).1 else f.v2[i]),
           f.u, f.v)
  }

  function NewCell<T>(f: Fields<T>, s: Point, kernel: Kernel<T>, sample: Point -> T, p: Point): (T, T)
    requires Positive3(s) && Sized(f, s) && Interior(s, p)
  {
    kernel(Around(f.u, s, p), Around(f.v, s, p), sample(p))
  }

  lemma CalcAt<T>(f: Fields<T>, s: Point, kernel: Kernel<T>, sample: Point -> T, p: Point)
    requires Positive3(s) && Sized(f, s) && Interior(s, p)
    ensures At(CalcSwap(f, s, kernel, sample).u, s, p) == NewCell(f, s, kernel, sample, p).0
    ensures At(CalcSwap(f, s, kernel, sample).v, s, p) == NewCell(f, s, kernel, sample, p).1
  {
    LocalAtL2I(s, p);
  }

  // ------------------------------------------------------------------
  // The six send-receives of one field
  // ------------------------------------------------------------------

  /** Steps 0, 1: XY faces; 2, 3: XZ faces; 4, 5: YZ faces. */
  function AxisOfStep(j: nat): nat
    requires j < 6
  {
    if j < 2 then 2 else if j < 4 then 1 else 0
  }

  /** Even steps send the last interior plane up and fill the low ghosts, odd
      steps send the first interior plane down and fill the high ghosts. */
  function SendPlane(s: Point, j: nat): int
    requires j < 6
  {
    if j % 2 == 0 then s.Axis(AxisOfStep(j)) else 1
  }

  function RecvPlane(s: Point, j: nat): int
    requires j < 6
  {
    if j % 2 == 0 then 0 else s.Axis(AxisOfStep(j)) + 1
  }

  /** MPI_Cart_shift by one on a periodic axis. */
  function Shift(np: Point, q: Point, axis: nat, up: bool): Point
    requires axis < 3
  {
    var n, c := np.Axis(axis), q.Axis(axis);
    WithAxis(q, axis, if up then (if c + 1 == n then 0 else c + 1) else (if c == 0 then n - 1 else c - 1))
  }

  function SourceRank(g: ProcGrid, j: nat, q: Point): Point
    requires j < 6
  {
    Shift(g.np, q, AxisOfStep(j), j % 2 != 0)
  }

  function TargetRank(g: ProcGrid, j: nat, q: Point): Point
    requires j < 6
  {
    Shift(g.np, q, AxisOfStep(j), j % 2 == 0)
  }

  lemma ShiftFacts(g: ProcGrid, j: nat, q: Point)
    requires j < 6 && g.Good() && g.IsRank(q)
    ensures g.IsRank(SourceRank(g, j, q)) && g.IsRank(TargetRank(g, j, q))
    ensures TargetRank(g, j, SourceRank(g, j, q)) == q && SourceRank(g, j, TargetRank(g, j, q)) == q
    ensures SameCross(g.Size(q), g.Size(SourceRank(g, j, q)), AxisOfStep(j))
    ensures Positive3(g.Size(q)) && Positive3(g.Size(SourceRank(g, j, q)))
  {
    RankFacts(g, q);
    RankFacts(g, SourceRank(g, j, q));
  }

  function Outgoing<T>(data: seq<T>, s: Point, j: nat): seq<T>
    requires j < 6 && Positive3(s) && |data| == Cells(s)
  {
    FaceFits(s, AxisOfStep(j), SendPlane(s, j));
    Pack(data, FaceVec(s, AxisOfStep(j), SendPlane(s, j)))
  }

  /** A message of the wrong length is not stored (it cannot occur). */
  function Incoming<T>(data: seq<T>, s: Point, j: nat, msg: seq<T>): (r: seq<T>)
    requires j < 6 && Positive3(s) && |data| == Cells(s)
    ensures |r| == |data|
  {
    FaceFits(s, AxisOfStep(j), RecvPlane(s, j));
    var v := FaceVec(s, AxisOfStep(j), RecvPlane(s, j));
    if |msg| == v.count * v.block then Unpack(data, v, msg) else data
  }

  /** One step, cell by cell. */
  lemma StepAt<T>(g: ProcGrid, j: nat, q: Point, from: seq<T>, data: seq<T>, p: Point)
    requires g.Good() && g.IsRank(q) && j < 6
    requires |from| == Cells(g.Size(SourceRank(g, j, q))) && |data| == Cells(g.Size(q)) && Local(g.Size(q), p)
    ensures var s, t, axis := g.Size(q), g.Size(SourceRank(g, j, q)), AxisOfStep(j);
      && Positive3(s) && Positive3(t)
      && var r := Incoming(data, s, j, Outgoing(from, t, j));
         if OnFace(s, axis, RecvPlane(s, j), p) then
           && Local(t, WithAxis(p, axis, SendPlane(t, j)))
           && At(r, s, p) == At(from, t, WithAxis(p, axis, SendPlane(t, j)))
         else At(r, s, p) == At(data, s, p)
  {
    ShiftFacts(g, j, q);
    var s, t, axis := g.Size(q), g.Size(SourceRank(g, j, q)), AxisOfStep(j);
    FaceTransfer(from, t, SendPlane(t, j), data, s, RecvPlane(s, j), axis, p);
  }

  /** Every rank's array after the first j steps, all ranks in step. */
  function Exchanged<T>(g: ProcGrid, w: Point -> seq<T>, j: nat, q: Point): seq<T>
    requires j <= 6
    decreases j
  {
    if j == 0 then w(q)
    else
      var data := Exchanged(g, w, j - 1, q);
      var src := SourceRank(g, j - 1, q);
      var from := Exchanged(g, w, j - 1, src);
      if g.Good() && g.IsRank(q) && g.IsRank(src) && Positive3(g.Size(q)) && Positive3(g.Size(src))
         && |data| == Cells(g.Size(q)) && |from| == Cells(g.Size(src))
      then Incoming(data, g.Size(q), j - 1, Outgoing(from, g.Size(src), j - 1))
      else data
  }

  ghost predicate WorldSized<T>(g: ProcGrid, w: Point -> seq<T>)
    requires g.Good()
  {
    forall q: Point :: g.IsRank(q) ==> |w(q)| == Cells(g.Size(q))
  }

  lemma {:induction false} ExchangedSized<T>(g: ProcGrid, w: Point -> seq<T>, j: nat, q: Point)
    requires g.Good() && WorldSized(g, w) && g.IsRank(q) && j <= 6
    ensures Positive3(g.Size(q)) && |Exchanged(g, w, j, q)| == Cells(g.Size(q))
    decreases j
  {
    RankFacts(g, q);
    if j > 0 { ExchangedSized(g, w, j - 1, q); }
  }

  /** A cell of an interior plane never changes during the exchange. */
  lemma {:induction false} InteriorKept<T>(g: ProcGrid, w: Point -> seq<T>, j: nat, q: Point, p: Point)
    requires g.Good() && WorldSized(g, w) && g.IsRank(q) && j <= 6
    requires Interior(g.Size(q), p)
    ensures Positive3(g.Size(q)) && |Exchanged(g, w, j, q)| == Cells(g.Size(q))
    ensures At(Exchanged(g, w, j, q), g.Size(q), p) == At(w(q), g.Size(q), p)
    decreases j
  {
    ExchangedSized(g, w, j, q);
    if j > 0 {
      var src := SourceRank(g, j - 1, q);
      ShiftFacts(g, j - 1, q);
      ExchangedSized(g, w, j - 1, q);
      ExchangedSized(g, w, j - 1, src);
      InteriorKept(g, w, j - 1, q, p);
      StepAt(g, j - 1, q, Exchanged(g, w, j - 1, src), Exchanged(g, w, j - 1, q), p);
    }
  }

  /** The face ghost filled by step j: outside the interior on that step's axis
      only. */
  predicate FaceGhost(s: Point, j: nat, p: Point)
    requires j < 6
  {
    p.Axis(AxisOfStep(j)) == RecvPlane(s, j) && Interior(s, WithAxis(p, AxisOfStep(j), 1))
  }

  /** Where a face ghost's value comes from. */
  function Origin(g: ProcGrid, j: nat, q: Point, p: Point): Point
    requires j < 6 && g.Good()
  {
    WithAxis(p, AxisOfStep(j), SendPlane(g.Size(SourceRank(g, j, q)), j))
  }

  lemma OriginInterior(g: ProcGrid, j: nat, q: Point, p: Point)
    requires g.Good() && g.IsRank(q) && j < 6 && FaceGhost(g.Size(q), j, p)
    ensures g.IsRank(SourceRank(g, j, q)) && Positive3(g.Size(q)) && Positive3(g.Size(SourceRank(g, j, q)))
    ensures Interior(g.Size(SourceRank(g, j, q)), Origin(g, j, q, p)) && Local(g.Size(q), p)
    ensures OnFace(g.Size(q), AxisOfStep(j), RecvPlane(g.Size(q), j), p)
  {
    ShiftFacts(g, j, q);
  }

  lemma OtherStepsMiss(s: Point, j: nat, k: nat, p: Point)
    requires j < 6 && k < 6 && j != k && Positive3(s) && FaceGhost(s, j, p)
    ensures !OnFace(s, AxisOfStep(k), RecvPlane(s, k), p)
  {
  }

  /** One step of the exchange, from the worlds before it. */
  lemma ExchangeStepAt<T>(g: ProcGrid, w: Point -> seq<T>, j: nat, q: Point, p: Point)
    requires g.Good() && WorldSized(g, w) && g.IsRank(q) && j < 6 && Local(g.Size(q), p)
    ensures var s, src := g.Size(q), SourceRank(g, j, q);
      var t := g.Size(src);
      && Positive3(s) && Positive3(t) && |Exchanged(g, w, j, q)| == Cells(s) == |Exchanged(g, w, j + 1, q)|
      && |Exchanged(g, w, j, src)| == Cells(t)
      && (OnFace(s, AxisOfStep(j), RecvPlane(s, j), p) ==>
           Local(t, Origin(g, j, q, p))
           && At(Exchanged(g, w, j + 1, q), s, p) == At(Exchanged(g, w, j, src), t, Origin(g, j, q, p)))
      && (!OnFace(s, AxisOfStep(j), RecvPlane(s, j), p) ==>
           At(Exchanged(g, w, j + 1, q), s, p) == At(Exchanged(g, w, j, q), s, p))
  {
    var src := SourceRank(g, j, q);
    ShiftFacts(g, j, q);
    ExchangedSized(g, w, j, q);
    ExchangedSized(g, w, j + 1, q);
    ExchangedSized(g, w, j, src);
    StepAt(g, j, q, Exchanged(g, w, j, src), Exchanged(g, w, j, q), p);
  }

  /** Once its step is done a face ghost holds the neighbour's interior cell,
      and no later step touches it. */
  lemma {:induction false} GhostFilled<T>(g: ProcGrid, w: Point -> seq<T>, j: nat, k: nat, q: Point, p: Point)
    requires g.Good() && WorldSized(g, w) && g.IsRank(q) && j < k <= 6
    requires FaceGhost(g.Size(q), j, p)
    ensures var s, src := g.Size(q), SourceRank(g, j, q);
      var t := g.Size(src);
      && Positive3(s) && Positive3(t) && g.IsRank(src) && Local(s, p) && Interior(t, Origin(g, j, q, p))
      && |Exchanged(g, w, k, q)| == Cells(s)
      && At(Exchanged(g, w, k, q), s, p) == At(w(src), t, Origin(g, j, q, p))
    decreases k
  {
    OriginInterior(g, j, q, p);
    ExchangeStepAt(g, w, k - 1, q, p);
    if j == k - 1 {
      InteriorKept(g, w, j, SourceRank(g, j, q), Origin(g, j, q, p));
    } else {
      GhostFilled(g, w, j, k - 1, q, p);
      OtherStepsMiss(g.Size(q), j, k - 1, p);
    }
  }

  // ------------------------------------------------------------------
  // Local and global coordinates
  // ------------------------------------------------------------------

  /** Global coordinates of a local cell (the inverse of g2i); a ghost may fall
      just outside the domain. */
  function GlobalOf(g: ProcGrid, q: Point, p: Point): Point
    requires g.Good()
  {
    var o := g.Offset(q);
    Point(o.x + p.x - 1, o.y + p.y - 1, o.z + p.z - 1)
  }

  function WrapAxis(v: int, len: int): int { if v < 0 then v + len else if v >= len then v - len else v }

  /** The cell of the periodic domain. */
  function Torus(g: ProcGrid, p: Point): Point {
    Point(WrapAxis(p.x, g.len), WrapAxis(p.y, g.len), WrapAxis(p.z, g.len))
  }

  lemma InteriorGlobal(g: ProcGrid, q: Point, p: Point)
    requires g.Good() && g.IsRank(q) && Interior(g.Size(q), p)
    ensures g.InDomain(GlobalOf(g, q, p)) && Torus(g, GlobalOf(g, q, p)) == GlobalOf(g, q, p)
  {
    AxisFacts(g.len, g.np.x, q.x);
    AxisFacts(g.len, g.np.y, q.y);
    AxisFacts(g.len, g.np.z, q.z);
  }

  /** Along one axis, the plane a rank is sent is the periodic neighbour plane. */
  lemma AxisNeighbour(len: int, np: int, p: int)
    requires AxisSplits(len, np) && 0 <= p < np
    ensures var below := if p == 0 then np - 1 else p - 1;
      AxisOffset(len, np, below) + AxisSize(len, np, below) - 1 == WrapAxis(AxisOffset(len, np, p) - 1, len)
    ensures var above := if p + 1 == np then 0 else p + 1;
      AxisOffset(len, np, above) == WrapAxis(AxisOffset(len, np, p) + AxisSize(len, np, p), len)
  {
    AxisFacts(len, np, p);
    AxisFacts(len, np, if p == 0 then np - 1 else p - 1);
    AxisFacts(len, np, if p + 1 == np then 0 else p + 1);
    assert AxisOffset(len, np, 0) == 0;
  }

  /** The origin of a face ghost is the ghost's cell on the torus. */
  lemma OriginGlobal(g: ProcGrid, j: nat, q: Point, p: Point)
    requires g.Good() && g.IsRank(q) && j < 6 && FaceGhost(g.Size(q), j, p)
    ensures GlobalOf(g, SourceRank(g, j, q), Origin(g, j, q, p)) == Torus(g, GlobalOf(g, q, p))
  {
    var inner := WithAxis(p, AxisOfStep(j), 1);
    InteriorGlobal(g, q, inner);
    AxisNeighbour(g.len, g.np.x, q.x);
    AxisNeighbour(g.len, g.np.y, q.y);
    AxisNeighbour(g.len, g.np.z, q.z);
  }

  // ------------------------------------------------------------------
  // One step equals one global step
  // ------------------------------------------------------------------

  /** The interiors of all ranks together are the global field. */
  ghost predicate Represents<T>(g: ProcGrid, w: Point -> seq<T>, f: Point -> T)
    requires g.Good()
  {
    && WorldSized(g, w)
    && forall q: Point, p: Point :: g.IsRank(q) && Positive3(g.Size(q)) && Interior(g.Size(q), p) ==>
         At(w(q), g.Size(q), p) == f(GlobalOf(g, q, p))
  }

  /** After the exchange a cell next to the interior holds the torus value. */
  lemma NeighbourValue<T>(g: ProcGrid, w: Point -> seq<T>, f: Point -> T, q: Point, p: Point, j: nat)
    requires g.Good() && g.IsRank(q) && Represents(g, w, f) && j < 6
    requires Interior(g.Size(q), p) || FaceGhost(g.Size(q), j, p)
    ensures Positive3(g.Size(q)) && Local(g.Size(q), p) && |Exchanged(g, w, 6, q)| == Cells(g.Size(q))
    ensures At(Exchanged(g, w, 6, q), g.Size(q), p) == f(Torus(g, GlobalOf(g, q, p)))
  {
    if Interior(g.Size(q), p) {
      InteriorKept(g, w, 6, q, p);
      InteriorGlobal(g, q, p);
    } else {
      GhostFilled(g, w, j, 6, q, p);
      OriginGlobal(g, j, q, p);
    }
  }

  function GlobalSeven<T>(g: ProcGrid, f: Point -> T, c: Point): Seven<T> {
    Seven(f(Torus(g, Move(c, -1, 0, 0))), f(Torus(g, Move(c, 1, 0, 0))), f(Torus(g, Move(c, 0, -1, 0))),
          f(Torus(g, Move(c, 0, 1, 0))), f(Torus(g, Move(c, 0, 0, -1))), f(Torus(g, Move(c, 0, 0, 1))), f(c))
  }

  /** The stencil a rank evaluates is the global one: the stale edge and corner
      ghosts are never read. */
  lemma AroundIsGlobal<T>(g: ProcGrid, w: Point -> seq<T>, f: Point -> T, q: Point, p: Point)
    requires g.Good() && g.IsRank(q) && Represents(g, w, f) && Interior(g.Size(q), p)
    ensures Positive3(g.Size(q)) && |Exchanged(g, w, 6, q)| == Cells(g.Size(q))
    ensures Around(Exchanged(g, w, 6, q), g.Size(q), p) == GlobalSeven(g, f, GlobalOf(g, q, p))
  {
    NeighbourValue(g, w, f, q, Move(p, -1, 0, 0), 4);
    NeighbourValue(g, w, f, q, Move(p, 1, 0, 0), 5);
    NeighbourValue(g, w, f, q, Move(p, 0, -1, 0), 2);
    NeighbourValue(g, w, f, q, Move(p, 0, 1, 0), 3);
    NeighbourValue(g, w, f, q, Move(p, 0, 0, -1), 0);
    NeighbourValue(g, w, f, q, Move(p, 0, 0, 1), 1);
    NeighbourValue(g, w, f, q, p, 0);
    InteriorGlobal(g, q, p);
    var c := GlobalOf(g, q, p);
    assert GlobalOf(g, q, Move(p, -1, 0, 0)) == Move(c, -1, 0, 0);
    assert GlobalOf(g, q, Move(p, 1, 0, 0)) == Move(c, 1, 0, 0);
    assert GlobalOf(g, q, Move(p, 0, -1, 0)) == Move(c, 0, -1, 0);
    assert GlobalOf(g, q, Move(p, 0, 1, 0)) == Move(c, 0, 1, 0);
    assert GlobalOf(g, q, Move(p, 0, 0, -1)) == Move(c, 0, 0, -1);
    assert GlobalOf(g, q, Move(p, 0, 0, 1)) == Move(c, 0, 0, 1);
  }

  // ------------------------------------------------------------------
  // The ranks' program
  // ------------------------------------------------------------------

  function Ranks(g: ProcGrid): set<Point> {
    set x: int, y: int, z: int | 0 <= x < g.np.x && 0 <= y < g.np.y && 0 <= z < g.np.z :: Point(x, y, z)
  }

  predicate RankReady<T>(g: ProcGrid, q: Point, f: Fields<T>) {
    g.Good() && g.IsRank(q) && Positive3(g.Size(q)) && |f.u| == |f.v| == |f.u2| == |f.v2| == Cells(g.Size(q))
  }

  /** Steps of one iterate: 0 to 5 exchange u, 6 to 11 exchange v; after the
      last one the rank computes and swaps. */
  function SendOf<T>(g: ProcGrid, k: nat, q: Point, f: Fields<T>): seq<T> {
    if !RankReady(g, q, f) then []
    else if k % 12 < 6 then Outgoing(f.u, g.Size(q), k % 12)
    else Outgoing(f.v, g.Size(q), k % 12 - 6)
  }

  function RecvOf<T>(g: ProcGrid, kernel: Kernel<T>, noise: Noise<T>, k: nat, q: Point, f: Fields<T>,
                     msg: seq<T>)
    : Fields<T>
  {
    if !RankReady(g, q, f) then f
    else if k % 12 < 6 then f.(u := Incoming(f.u, g.Size(q), k % 12, msg))
    else
      var f' := f.(v := Incoming(f.v, g.Size(q), k % 12 - 6, msg));
      if k % 12 < 11 then f' else CalcSwap(f', g.Size(q), kernel, p => noise(k / 12, GlobalOf(g, q, p)))
  }

  function HaloProgram<T>(g: ProcGrid, init: Point -> Fields<T>, kernel: Kernel<T>, noise: Noise<T>)
    : Program<Point, Fields<T>, seq<T>>
  {
    Program(Ranks(g), init,
            (k: nat, q: Point, f: Fields<T>) => SendOf(g, k, q, f),
            (k: nat, q: Point, f: Fields<T>, msg: seq<T>) => RecvOf(g, kernel, noise, k, q, f, msg),
            (k: nat, q: Point) => SourceRank(g, k % 6, q),
            (k: nat, q: Point) => TargetRank(g, k % 6, q))
  }

  lemma HaloMatched<T>(g: ProcGrid, init: Point -> Fields<T>, kernel: Kernel<T>, noise: Noise<T>)
    requires g.Good()
    ensures HaloProgram(g, init, kernel, noise).Matched()
  {
    var P := HaloProgram(g, init, kernel, noise);
    forall k: nat, q | q in P.nodes ensures P.MatchedAt(k, q) {
      ShiftFacts(g, k % 6, q);
      assert SourceRank(g, k % 6, q) in Ranks(g);
      assert TargetRank(g, k % 6, q) in Ranks(g);
    }
  }
}
