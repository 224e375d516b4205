/** A rank of example/gssimulation/gray-scott.cpp: decomposition, initial
    field, stencil loop, and the ghost-free copy that is put into the servers.
    The three MPI exchanges between two iterations are in module Halo. */
module GrayScott {
  import opened Boxes
  import opened Matrix
  import opened Decomposition
  import opened Halo
  import opened HaloRuns
  import opened Lockstep

  /** settings.L / 2 +- settings.L / 4 on every axis. */
  predicate InSeed(len: nat, c: Point) {
    var lo, hi := len / 2 - len / 4, len / 2 + len / 4;
    lo <= c.x < hi && lo <= c.y < hi && lo <= c.z < hi
  }

  /** The field every decomposition starts from. */
  function InitialValue<T>(len: nat, background: T, seed: T, c: Point): T {
    if InSeed(len, c) then seed else background
  }

  /** is_inside: the cell belongs to this rank. */
  predicate IsInside(offset: Point, size: Point, c: Point) {
    if c.x < offset.x then false
    else if c.x >= offset.x + size.x then false
    else if c.y < offset.y then false
    else if c.y >= offset.y + size.y then false
    else if c.z < offset.z then false
    else if c.z >= offset.z + size.z then false
    else true
  }

  /** g2i: global coordinates to local coordinates with ghosts. */
  function ToLocal(offset: Point, c: Point): Point { Point(c.x - offset.x + 1, c.y - offset.y + 1, c.z - offset.z + 1) }

  /** is_inside and g2i agree with the tiling: a rank holds a cell inside
      exactly when it owns it, and g2i inverts the cell's global position. */
  lemma InsideIsOwned(g: ProcGrid, q: Point, c: Point)
    requires g.Good() && g.IsRank(q) && g.InDomain(c)
    ensures IsInside(g.Offset(q), g.Size(q), c) <==> q == g.Owner(c)
    ensures IsInside(g.Offset(q), g.Size(q), c) <==> Interior(g.Size(q), ToLocal(g.Offset(q), c))
    ensures GlobalOf(g, q, ToLocal(g.Offset(q), c)) == c
    ensures ToLocal(g.Offset(q), GlobalOf(g, q, c)) == c
  {
    BlocksTile(g, c);
    assert IsInside(g.Offset(q), g.Size(q), c) <==> g.Block(q).Has(c);
  }

  lemma AtUpdate<T>(data: seq<T>, s: Point, c: Point, v: T, p: Point)
    requires Positive3(s) && |data| == Cells(s) && Local(s, c) && Local(s, p)
    ensures 0 <= L2I(s, c) < |data|
    ensures At(data[L2I(s, c) := v], s, p) == (if p == c then v else At(data, s, p))
  {
    L2IRange(s, c);
    L2IRange(s, p);
    if p != c && L2I(s, p) == L2I(s, c) { L2IInjective(s, p, c); }
  }

  // ------------------------------------------------------------------
  // Loop states
  // ------------------------------------------------------------------

  /** The seeding loop has passed every cell before (x, y, z). */
  ghost predicate SeededUpTo<T>(data: seq<T>, g: ProcGrid, q: Point, background: T, seed: T, x: int, y: int, z: int)
    requires g.Good() && g.len >= 1 && Positive3(g.Size(q)) && |data| == Cells(g.Size(q))
  {
    forall p: Point :: Local(g.Size(q), p) ==>
      var c := GlobalOf(g, q, p);
      At(data, g.Size(q), p) ==
        (if Interior(g.Size(q), p) && InSeed(g.len, c) && Scanned(c, x, y, z) then seed else background)
  }

  lemma SeedOne<T>(before: seq<T>, g: ProcGrid, q: Point, background: T, seed: T, c: Point)
    requires g.Good() && g.len >= 1 && g.IsRank(q) && Positive3(g.Size(q)) && |before| == Cells(g.Size(q))
    requires InSeed(g.len, c)
    requires Interior(g.Size(q), ToLocal(g.Offset(q), c))
    requires SeededUpTo(before, g, q, background, seed, c.x, c.y, c.z)
    ensures 0 <= L2I(g.Size(q), ToLocal(g.Offset(q), c)) < |before|
    ensures SeededUpTo(before[L2I(g.Size(q), ToLocal(g.Offset(q), c)) := seed], g, q, background, seed, c.x + 1, c.y,
                       c.z)
  {
    var s, l := g.Size(q), ToLocal(g.Offset(q), c);
    L2IRange(s, l);
    forall p: Point | Local(s, p)
      ensures At(before[L2I(s, l) := seed], s, p) ==
        (if Interior(s, p) && InSeed(g.len, GlobalOf(g, q, p)) && Scanned(GlobalOf(g, q, p), c.x + 1, c.y, c.z)
         then seed else background)
    {
      AtUpdate(before, s, l, seed, p);
      var d := GlobalOf(g, q, p);
      assert Scanned(d, c.x + 1, c.y, c.z) <==> Scanned(d, c.x, c.y, c.z) || d == c;
      assert d == c <==> p == l;
    }
  }

  /** calc has passed every interior cell before (x, y, z). */
  ghost predicate CalcUpTo<T>(f: Fields<T>, s: Point, kernel: Kernel<T>, sample: Point -> T, u2: seq<T>, v2: seq<T>,
                              x: int, y: int, z: int)
    requires Positive3(s) && Sized(f, s) && |u2| == |v2| == Cells(s)
  {
    forall p: Point :: Local(s, p) ==>
      if Interior(s, p) && Scanned(p, x, y, z) then
        At(u2, s, p) == NewCell(f, s, kernel, sample, p).0 && At(v2, s, p) == NewCell(f, s, kernel, sample, p).1
      else At(u2, s, p) == At(f.u2, s, p) && At(v2, s, p) == At(f.v2, s, p)
  }

  lemma CalcOne<T>(f: Fields<T>, s: Point, kernel: Kernel<T>, sample: Point -> T, u2: seq<T>, v2: seq<T>, c: Point)
    requires Positive3(s) && Sized(f, s) && |u2| == |v2| == Cells(s) && Interior(s, c)
    requires CalcUpTo(f, s, kernel, sample, u2, v2, c.x, c.y, c.z)
    ensures 0 <= L2I(s, c) < Cells(s)
    ensures var cell := NewCell(f, s, kernel, sample, c);
      CalcUpTo(f, s, kernel, sample, u2[L2I(s, c) := cell.0], v2[L2I(s, c) := cell.1], c.x + 1, c.y, c.z)
  {
    L2IRange(s, c);
    var cell := NewCell(f, s, kernel, sample, c);
    forall p: Point | Local(s, p)
      ensures if Interior(s, p) && Scanned(p, c.x + 1, c.y, c.z) then
          && At(u2[L2I(s, c) := cell.0], s, p) == NewCell(f, s, kernel, sample, p).0
          && At(v2[L2I(s, c) := cell.1], s, p) == NewCell(f, s, kernel, sample, p).1
        else At(u2[L2I(s, c) := cell.0], s, p) == At(f.u2, s, p) && At(v2[L2I(s, c) := cell.1], s, p) == At(f.v2, s, p)
    {
      AtUpdate(u2, s, c, cell.0, p);
      AtUpdate(v2, s, c, cell.1, p);
      assert Scanned(p, c.x + 1, c.y, c.z) <==> Scanned(p, c.x, c.y, c.z) || p == c;
    }
  }

  lemma CalcAll<T>(f: Fields<T>, s: Point, kernel: Kernel<T>, sample: Point -> T, u2: seq<T>, v2: seq<T>)
    requires Positive3(s) && Sized(f, s) && |u2| == |v2| == Cells(s)
    requires CalcUpTo(f, s, kernel, sample, u2, v2, 1, 1, s.z + 1)
    ensures Fields(u2, v2, f.u, f.v) == CalcSwap(f, s, kernel, sample)
  {
    var r := CalcSwap(f, s, kernel, sample);
    forall i | 0 <= i < Cells(s) ensures u2[i] == r.u[i] && v2[i] == r.v[i] {
      LocalAtIndex(s, i);
      var p := LocalAt(s, i);
      assert At(u2, s, p) == u2[i] && At(f.u2, s, p) == f.u2[i];
      assert At(v2, s, p) == v2[i] && At(f.v2, s, p) == f.v2[i];
    }
  }

  // ------------------------------------------------------------------
  // The interior as a box
  // ------------------------------------------------------------------

  function InnerBox(s: Point): (b: BBX)
    ensures b.Valid() && b.dims == 3
  {
    Box3(Point(1, 1, 1), s)
  }

  lemma InnerFacts(s: Point)
    requires Positive3(s)
    ensures InnerBox(s).Proper() && LocalBox(s).Proper() && Inside(InnerBox(s), LocalBox(s))
    ensures InnerBox(s).Volume() == s.x * s.y * s.z >= 1
    ensures forall p: Point :: InnerBox(s).Has(p) <==> Interior(s, p)
  {
    CornersInRange(InnerBox(s));
  }

  /** Row-major position of an interior cell in the ghost-free array is its
      position in the box the writer declares. */
  lemma NoGhostIndex(g: ProcGrid, q: Point, p: Point)
    requires g.Good() && g.IsRank(q)
    ensures InnerBox(g.Size(q)).Index(p) == g.Block(q).Index(GlobalOf(g, q, p))
    ensures InnerBox(g.Size(q)).Volume() == g.Block(q).Volume()
    ensures Interior(g.Size(q), p) <==> g.Block(q).Has(GlobalOf(g, q, p))
  {
    RankFacts(g, q);
    var a, b := InnerBox(g.Size(q)), g.Block(q);
    assert a.Ext(0) == b.Ext(0) && a.Ext(1) == b.Ext(1) && a.Ext(2) == b.Ext(2);
  }

  /** What a rank puts is what the staging servers need: at the position of
      each cell of the declared box, the value of the global field there. */
  lemma PutHoldsField<T>(g: ProcGrid, data: seq<T>, f: Point -> T, q: Point, c: Point)
    requires g.Good() && g.IsRank(q) && Positive3(g.Size(q)) && |data| == Cells(g.Size(q)) && g.Block(q).Has(c)
    requires forall p: Point :: Interior(g.Size(q), p) ==> At(data, g.Size(q), p) == f(GlobalOf(g, q, p))
    ensures var s := g.Size(q);
      && InnerBox(s).Proper() && LocalBox(s).Proper() && Inside(InnerBox(s), LocalBox(s))
      && |Extract(LocalBox(s), data, InnerBox(s))| == g.Block(q).Volume()
      && 0 <= g.Block(q).Index(c) < g.Block(q).Volume()
      && Extract(LocalBox(s), data, InnerBox(s))[g.Block(q).Index(c)] == f(c)
  {
    var s, p := g.Size(q), ToLocal(g.Offset(q), c);
    InnerFacts(s);
    NoGhostIndex(g, q, p);
    assert GlobalOf(g, q, p) == c;
    ExtractAt(LocalBox(s), data, InnerBox(s), p);
    L2IIsIndex(s, p);
  }

  /** In every run, whatever the interleaving, the block a rank puts after t
      iterations holds the global simulation after t steps. */
  lemma EveryPutIsGlobal<T>(g: ProcGrid, init: Point -> Fields<T>, kernel: Kernel<T>, noise: Noise<T>,
                            f: GlobalField<T>, limit: nat, run: seq<System<Point, Fields<T>, seq<T>>>, i: nat, q: Point,
                            t: nat, c: Point)
    requires g.Good() && Starts(g, init, f) && Run(HaloProgram(g, init, kernel, noise), limit, run) && i < |run|
    requires g.IsRank(q) && q in run[i].node && run[i].node[q].pc == 12 * t && g.Block(q).Has(c)
    ensures var s, data := g.Size(q), run[i].node[q].data.u;
      && Positive3(s) && |data| == Cells(s)
      && InnerBox(s).Proper() && LocalBox(s).Proper() && Inside(InnerBox(s), LocalBox(s))
      && |Extract(LocalBox(s), data, InnerBox(s))| == g.Block(q).Volume()
      && 0 <= g.Block(q).Index(c) < g.Block(q).Volume()
      && Extract(LocalBox(s), data, InnerBox(s))[g.Block(q).Index(c)] == GlobalAfter(g, kernel, noise, f, t).u(c)
  {
    RankFacts(g, q);
    var data := run[i].node[q].data.u;
    EveryRunIsGlobal(g, init, kernel, noise, f, limit, run, i, q, t, Point(1, 1, 1));
    forall p: Point | Interior(g.Size(q), p)
      ensures At(data, g.Size(q), p) == GlobalAfter(g, kernel, noise, f, t).u(GlobalOf(g, q, p))
    {
      EveryRunIsGlobal(g, init, kernel, noise, f, limit, run, i, q, t, p);
    }
    PutHoldsField(g, data, GlobalAfter(g, kernel, noise, f, t).u, q, c);
  }

  function InitialGlobal<T>(len: nat, u0: T, v0: T, seedU: T, seedV: T): GlobalField<T> {
    GlobalField((c: Point) => InitialValue(len, u0, seedU, c), (c: Point) => InitialValue(len, v0, seedV, c))
  }

  /** What init_mpi and init_field leave at one rank. */
  ghost predicate RankSeeded<T>(g: ProcGrid, q: Point, f: Fields<T>, u0: T, v0: T, seedU: T, seedV: T)
    requires g.Good() && g.len >= 0
  {
    && RankReady(g, q, f)
    && forall p: Point :: Interior(g.Size(q), p) ==>
         && At(f.u, g.Size(q), p) == InitialValue(g.len, u0, seedU, GlobalOf(g, q, p))
         && At(f.v, g.Size(q), p) == InitialValue(g.len, v0, seedV, GlobalOf(g, q, p))
  }

  ghost predicate Seeded<T>(g: ProcGrid, init: Point -> Fields<T>, u0: T, v0: T, seedU: T, seedV: T)
    requires g.Good() && g.len >= 0
  {
    forall q: Point {:trigger init(q)} :: g.IsRank(q) ==> RankSeeded(g, q, init(q), u0, v0, seedU, seedV)
  }

  /** The seeded ranks together hold one field, the same for every process
      grid. */
  lemma InitStarts<T>(g: ProcGrid, init: Point -> Fields<T>, u0: T, v0: T, seedU: T, seedV: T)
    requires g.Good() && g.len >= 0 && Seeded(g, init, u0, v0, seedU, seedV)
    ensures Starts(g, init, InitialGlobal(g.len, u0, v0, seedU, seedV))
  {
    var f := InitialGlobal(g.len, u0, v0, seedU, seedV);
    var u, v := (q: Point) => init(q).u, (q: Point) => init(q).v;
    forall q: Point | g.IsRank(q) ensures RankReady(g, q, init(q)) {
      assert RankSeeded(g, q, init(q), u0, v0, seedU, seedV);
    }
    assert WorldSized(g, u) && WorldSized(g, v);
    forall q: Point, p: Point | g.IsRank(q) && Positive3(g.Size(q)) && Interior(g.Size(q), p)
      ensures At(u(q), g.Size(q), p) == f.u(GlobalOf(g, q, p)) && At(v(q), g.Size(q), p) == f.v(GlobalOf(g, q, p))
    {
      assert RankSeeded(g, q, init(q), u0, v0, seedU, seedV);
    }
    assert Represents(g, u, f.u) && Represents(g, v, f.v);
  }

  // ------------------------------------------------------------------
  // The reaction-diffusion kernel, over the reals
  // ------------------------------------------------------------------

  datatype Settings = Settings(F: real, k: real, dt: real, Du: real, Dv: real, noise: real)

  function Laplacian(s: Seven<real>): real {
    (s.west + s.east + s.down + s.up + s.south + s.north - 6.0 * s.center) / 6.0
  }

  function CalcU(st: Settings, tu: real, tv: real): real { -tu * tv * tv + st.F * (1.0 - tu) }
  function CalcV(st: Settings, tu: real, tv: real): real { tu * tv * tv - (st.F + st.k) * tv }

  function CellKernel(st: Settings): Kernel<real> {
    (a: Seven<real>, b: Seven<real>, sample: real) =>
      var du := st.Du * Laplacian(a) + CalcU(st, a.center, b.center) + st.noise * sample;
      var dv := st.Dv * Laplacian(b) + CalcV(st, a.center, b.center);
      (a.center + du * st.dt, b.center + dv * st.dt)
  }

  /** Where no seed is near and there is no noise, (1, 0) is at rest. */
  lemma {:induction false} RestIsFixed(g: ProcGrid, st: Settings, noise: Noise<real>, f: GlobalField<real>, t: nat,
                                       c: Point)
    requires st.noise == 0.0
    requires forall p: Point :: f.u(p) == 1.0 && f.v(p) == 0.0
    ensures GlobalAfter(g, CellKernel(st), noise, f, t).u(c) == 1.0
    ensures GlobalAfter(g, CellKernel(st), noise, f, t).v(c) == 0.0
    decreases t
  {
    if t > 0 {
      var before := GlobalAfter(g, CellKernel(st), noise, f, t - 1);
      forall p: Point ensures before.u(p) == 1.0 && before.v(p) == 0.0 {
        RestIsFixed(g, st, noise, f, t - 1, p);
      }
      var a, b := GlobalSeven(g, before.u, c), GlobalSeven(g, before.v, c);
      assert Laplacian(a) == 0.0 && Laplacian(b) == 0.0;
      assert st.Du * 0.0 == 0.0 && st.Dv * 0.0 == 0.0 && st.F * (1.0 - 1.0) == 0.0 && st.noise * noise(t - 1, c) == 0.0;
    }
  }

  // ------------------------------------------------------------------
  // The rank
  // ------------------------------------------------------------------

  class Simulation<T> {
    const grid: ProcGrid
    const coords: Point
    var size: Point
    var offset: Point
    var u: array<T>
    var v: array<T>
    var u2: array<T>
    var v2: array<T>

    ghost predicate Valid()
      reads this
    {
      && grid.Good() && grid.len >= 1 && grid.IsRank(coords)
      && size == grid.Size(coords) && offset == grid.Offset(coords) && Positive3(size)
      && u.Length == v.Length == u2.Length == v2.Length == Cells(size)
      && u != v && u != u2 && u != v2 && v != u2 && v != v2 && u2 != v2
    }

    ghost function Contents(): (f: Fields<T>)
      requires Valid()
      reads this, u, v, u2, v2
      ensures Sized(f, size)
    {
      Fields(u[..], v[..], u2[..], v2[..])
    }

    /** init_mpi for given Cartesian coordinates, then the allocation of
        init_field. */
    constructor (g: ProcGrid, q: Point, u0: T, v0: T, zero: T)
      requires g.Good() && g.IsRank(q)
      ensures Valid() && grid == g && coords == q && fresh(u) && fresh(v) && fresh(u2) && fresh(v2)
      ensures forall i :: 0 <= i < Cells(size) ==> u[i] == u0 && v[i] == v0 && u2[i] == zero && v2[i] == zero
    {
      grid, coords := g, q;
      var sx, sy, sz := (g.len + g.np.x - 1) / g.np.x, (g.len + g.np.y - 1) / g.np.y, (g.len + g.np.z - 1) / g.np.z;
      offset := Point(sx * q.x, sy * q.y, sz * q.z);
      if q.x == g.np.x - 1 { sx := sx - (sx * g.np.x - g.len); }
      if q.y == g.np.y - 1 { sy := sy - (sy * g.np.y - g.len); }
      if q.z == g.np.z - 1 { sz := sz - (sz * g.np.z - g.len); }
      var s := Point(sx, sy, sz);
      size := s;
      RankFacts(g, q);
      assert s == g.Size(q);
      CornersInRange(LocalBox(s));
      var n := (sx + 2) * (sy + 2) * (sz + 2);
      assert n == Cells(s);
      u := new T[n](_ => u0);
      v := new T[n](_ => v0);
      u2 := new T[n](_ => zero);
      v2 := new T[n](_ => zero);
    }

    /** The seeding loops of init_field: whatever the decomposition, the ranks
        together hold one initial field. */
    method InitField(u0: T, v0: T, seedU: T, seedV: T)
      requires Valid()
      requires forall i :: 0 <= i < Cells(size) ==> u[i] == u0 && v[i] == v0
      modifies u, v
      ensures Valid()
      ensures forall p: Point :: Interior(size, p) ==>
        && At(u[..], size, p) == InitialValue(grid.len, u0, seedU, GlobalOf(grid, coords, p))
        && At(v[..], size, p) == InitialValue(grid.len, v0, seedV, GlobalOf(grid, coords, p))
    {
      var lo, hi := grid.len / 2 - grid.len / 4, grid.len / 2 + grid.len / 4;
      AllBackground(u0, v0, seedU, seedV, lo);
      for z := lo to hi
        invariant SeededUpTo(u[..], grid, coords, u0, seedU, lo, lo, z)
        invariant SeededUpTo(v[..], grid, coords, v0, seedV, lo, lo, z)
      {
        for y := lo to hi
          invariant SeededUpTo(u[..], grid, coords, u0, seedU, lo, y, z)
          invariant SeededUpTo(v[..], grid, coords, v0, seedV, lo, y, z)
        {
          SeedRow(u0, v0, seedU, seedV, y, z);
        }
      }
    }

    lemma AllBackground(u0: T, v0: T, seedU: T, seedV: T, lo: int)
      requires Valid() && lo == grid.len / 2 - grid.len / 4
      requires forall i :: 0 <= i < Cells(size) ==> u[i] == u0 && v[i] == v0
      ensures SeededUpTo(u[..], grid, coords, u0, seedU, lo, lo, lo)
      ensures SeededUpTo(v[..], grid, coords, v0, seedV, lo, lo, lo)
    {
      forall p: Point | Local(size, p) ensures At(u[..], size, p) == u0 && At(v[..], size, p) == v0 {
        L2IRange(size, p);
      }
    }

    method SeedRow(u0: T, v0: T, seedU: T, seedV: T, y: int, z: int)
      requires Valid() && InSeed(grid.len, Point(y, y, z))
      requires var lo := grid.len / 2 - grid.len / 4;
        SeededUpTo(u[..], grid, coords, u0, seedU, lo, y, z) && SeededUpTo(v[..], grid, coords, v0, seedV, lo, y, z)
      modifies u, v
      ensures var lo := grid.len / 2 - grid.len / 4;
        && SeededUpTo(u[..], grid, coords, u0, seedU, lo, y + 1, z)
        && SeededUpTo(v[..], grid, coords, v0, seedV, lo, y + 1, z)
    {
      var lo, hi := grid.len / 2 - grid.len / 4, grid.len / 2 + grid.len / 4;
      for x := lo to hi
        invariant SeededUpTo(u[..], grid, coords, u0, seedU, x, y, z)
        invariant SeededUpTo(v[..], grid, coords, v0, seedV, x, y, z)
      {
        var c := Point(x, y, z);
        if !IsInside(offset, size, c) { continue; }
        var l := ToLocal(offset, c);
        SeedOne(u[..], grid, coords, u0, seedU, c);
        SeedOne(v[..], grid, coords, v0, seedV, c);
        var i := L2I(size, l);
        u[i] := seedU;
        v[i] := seedV;
      }
    }

    function ReadSeven(a: array<T>, x: int, y: int, z: int): Seven<T>
      requires Valid() && a.Length == Cells(size) && Interior(size, Point(x, y, z))
      reads this, a
      ensures ReadSeven(a, x, y, z) == Around(a[..], size, Point(x, y, z))
    {
      var s := size;
      AroundLocal(s, Point(x, y, z));
      L2IRange(s, Point(x - 1, y, z));
      L2IRange(s, Point(x + 1, y, z));
      L2IRange(s, Point(x, y - 1, z));
      L2IRange(s, Point(x, y + 1, z));
      L2IRange(s, Point(x, y, z - 1));
      L2IRange(s, Point(x, y, z + 1));
      L2IRange(s, Point(x, y, z));
      Seven(a[L2I(s, Point(x - 1, y, z))], a[L2I(s, Point(x + 1, y, z))], a[L2I(s, Point(x, y - 1, z))],
            a[L2I(s, Point(x, y + 1, z))], a[L2I(s, Point(x, y, z - 1))], a[L2I(s, Point(x, y, z + 1))],
            a[L2I(s, Point(x, y, z))])
    }

    /** calc and the swaps at the end of iterate. */
    method CalcAndSwap(kernel: Kernel<T>, sample: Point -> T)
      requires Valid()
      modifies this`u, this`v, this`u2, this`v2, u2, v2
      ensures Valid() && u == old(u2) && v == old(v2) && u2 == old(u) && v2 == old(v)
      ensures Contents() == CalcSwap(old(Contents()), size, kernel, sample)
    {
      Calc(kernel, sample);
      u, u2 := u2, u;
      v, v2 := v2, v;
    }

    /** calc: the triple loop over the interior. */
    method Calc(kernel: Kernel<T>, sample: Point -> T)
      requires Valid()
      modifies u2, v2
      ensures Fields(u2[..], v2[..], u[..], v[..]) == CalcSwap(old(Contents()), size, kernel, sample)
    {
      ghost var f := Contents();
      for z := 1 to size.z + 1
        invariant CalcUpTo(f, size, kernel, sample, u2[..], v2[..], 1, 1, z)
      {
        for y := 1 to size.y + 1
          invariant CalcUpTo(f, size, kernel, sample, u2[..], v2[..], 1, y, z)
        {
          CalcRow(kernel, sample, f, y, z);
          assert forall p: Point :: Interior(size, p) ==> (Scanned(p, 1, y + 1, z) <==> Scanned(p, size.x + 1, y, z));
        }
        assert forall p: Point :: Interior(size, p) ==> (Scanned(p, 1, 1, z + 1) <==> Scanned(p, 1, size.y + 1, z));
      }
      CalcAll(f, size, kernel, sample, u2[..], v2[..]);
    }

    method CalcRow(kernel: Kernel<T>, sample: Point -> T, ghost f: Fields<T>, y: int, z: int)
      requires Valid() && Sized(f, size) && f.u == u[..] && f.v == v[..] && 1 <= y <= size.y && 1 <= z <= size.z
      requires CalcUpTo(f, size, kernel, sample, u2[..], v2[..], 1, y, z)
      modifies u2, v2
      ensures CalcUpTo(f, size, kernel, sample, u2[..], v2[..], size.x + 1, y, z)
    {
      for x := 1 to size.x + 1
        invariant CalcUpTo(f, size, kernel, sample, u2[..], v2[..], x, y, z)
      {
        var c := Point(x, y, z);
        var i := L2I(size, c);
        CalcOne(f, size, kernel, sample, u2[..], v2[..], c);
        var cell := kernel(ReadSeven(u, x, y, z), ReadSeven(v, x, y, z), sample(c));
        u2[i] := cell.0;
        v2[i] := cell.1;
      }
    }

    /** data_no_ghost_common into a buffer of size_x * size_y * size_z: each
        output cell is the interior cell at its row-major position. */
    method DataNoGhost(data: array<T>, out: array<T>)
      requires Valid() && data.Length == Cells(size) && out != data && out.Length == size.x * size.y * size.z
      modifies out
      ensures InnerBox(size).Proper() && LocalBox(size).Proper() && Inside(InnerBox(size), LocalBox(size))
      ensures out[..] == Extract(LocalBox(size), data[..], InnerBox(size))
    {
      var s := size;
      InnerFacts(s);
      for z := 1 to s.z + 1
        invariant CopiedUpTo(out[..], InnerBox(s), data[..], LocalBox(s), 1, 1, z)
      {
        for y := 1 to s.y + 1
          invariant CopiedUpTo(out[..], InnerBox(s), data[..], LocalBox(s), 1, y, z)
        {
          CopyRow(data, out, y, z);
        }
      }
      CopiedAll(out[..], InnerBox(s), data[..], LocalBox(s), s.z + 1);
    }

    method CopyRow(data: array<T>, out: array<T>, y: int, z: int)
      requires Valid() && data.Length == Cells(size) && out != data && out.Length == InnerBox(size).Volume()
      requires InnerBox(size).Proper() && LocalBox(size).Proper() && Inside(InnerBox(size), LocalBox(size))
      requires 1 <= y <= size.y && 1 <= z <= size.z
      requires CopiedUpTo(out[..], InnerBox(size), data[..], LocalBox(size), 1, y, z)
      modifies out
      ensures CopiedUpTo(out[..], InnerBox(size), data[..], LocalBox(size), 1, y + 1, z)
    {
      var s := size;
      ghost var from := data[..];
      for x := 1 to s.x + 1
        invariant data[..] == from
        invariant CopiedUpTo(out[..], InnerBox(s), from, LocalBox(s), x, y, z)
      {
        var p := Point(x, y, z);
        CopyPosition(s, p);
        ghost var before := out[..];
        out[(x - 1) + (y - 1) * s.x + (z - 1) * s.x * s.y] := data[L2I(s, p)];
        CopyOne(before, out[..], InnerBox(s), from, LocalBox(s), p);
      }
      assert forall p: Point :: Interior(s, p) && Scanned(p, 1, y + 1, z) ==> Scanned(p, s.x + 1, y, z);
    }
  }

  /** The start of one rank: init_mpi, the allocation and the seeding. */
  method StartRank<T>(g: ProcGrid, q: Point, u0: T, v0: T, zero: T, seedU: T, seedV: T) returns (sim: Simulation<T>)
    requires g.Good() && g.IsRank(q) && g.len >= 0
    ensures fresh(sim) && sim.Valid() && sim.grid == g && sim.coords == q
    ensures RankSeeded(g, q, sim.Contents(), u0, v0, seedU, seedV)
  {
    sim := new Simulation(g, q, u0, v0, zero);
    sim.InitField(u0, v0, seedU, seedV);
  }

  /** Starting every rank establishes the hypothesis of the simulation results:
      whatever the process grid, the ranks together hold the one initial field. */
  method StartAll<T>(g: ProcGrid, u0: T, v0: T, zero: T, seedU: T, seedV: T) returns (fields: map<Point, Fields<T>>)
    requires g.Good() && g.len >= 0
    ensures forall q: Point :: g.IsRank(q) ==> q in fields
    ensures Starts(g, Started(fields), InitialGlobal(g.len, u0, v0, seedU, seedV))
  {
    var todo := set x, y, z | 0 <= x < g.np.x && 0 <= y < g.np.y && 0 <= z < g.np.z :: Point(x, y, z);
    fields := map[];
    assert forall q: Point :: g.IsRank(q) ==> Point(q.x, q.y, q.z) in todo;
    while todo != {}
      invariant forall q :: q in todo ==> g.IsRank(q)
      invariant forall q: Point :: g.IsRank(q) ==> q in todo || q in fields
      invariant forall q :: q in fields ==> RankSeeded(g, q, fields[q], u0, v0, seedU, seedV)
      decreases todo
    {
      var q :| q in todo;
      var sim := StartRank(g, q, u0, v0, zero, seedU, seedV);
      fields := fields[q := Fields(sim.u[..], sim.v[..], sim.u2[..], sim.v2[..])];
      todo := todo - {q};
    }
    FieldsStart(g, fields, u0, v0, seedU, seedV);
  }

  function Started<T>(fields: map<Point, Fields<T>>): Point -> Fields<T> {
    (q: Point) => if q in fields then fields[q] else Fields([], [], [], [])
  }

  lemma FieldsStart<T>(g: ProcGrid, fields: map<Point, Fields<T>>, u0: T, v0: T, seedU: T, seedV: T)
    requires g.Good() && g.len >= 0
    requires forall q: Point :: g.IsRank(q) ==> q in fields && RankSeeded(g, q, fields[q], u0, v0, seedU, seedV)
    ensures Starts(g, Started(fields), InitialGlobal(g.len, u0, v0, seedU, seedV))
  {
    forall q: Point | g.IsRank(q) ensures RankSeeded(g, q, Started(fields)(q), u0, v0, seedU, seedV) {
      assert q in fields;
    }
    InitStarts(g, Started(fields), u0, v0, seedU, seedV);
  }

  lemma CopyPosition(s: Point, p: Point)
    requires Positive3(s) && Interior(s, p)
    ensures 0 <= (p.x - 1) + (p.y - 1) * s.x + (p.z - 1) * s.x * s.y < InnerBox(s).Volume() && 0 <= L2I(s, p) < Cells(s)
    ensures InnerBox(s).Index(p) == (p.x - 1) + (p.y - 1) * s.x + (p.z - 1) * s.x * s.y
    ensures L2I(s, p) == LocalBox(s).Index(p)
  {
    IndexInRange(InnerBox(s), p);
    L2IRange(s, p);
    L2IIsIndex(s, p);
    NoGhostPosition(s, p);
  }

  lemma NoGhostPosition(s: Point, p: Point)
    ensures InnerBox(s).Index(p) == (p.x - 1) + (p.y - 1) * s.x + (p.z - 1) * s.x * s.y
  {
    var b := InnerBox(s);
    assert b.Ext(0) == s.x && b.Ext(1) == s.y && b.Lo(0) == b.Lo(1) == b.Lo(2) == 1;
    assert (p.z - 1) * (s.y * s.x) == (p.z - 1) * s.x * s.y;
  }
}
