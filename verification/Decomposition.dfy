/** The block decomposition of example/gssimulation/gray-scott.cpp (init_mpi)
    and the local index of gray-scott.h. */
module Decomposition {
  import opened Arith
  import opened Boxes
  import opened Matrix

  /** (L + np - 1) / np in unsigned arithmetic. */
  function ChunkOf(len: int, np: int): int
    requires np >= 1
  {
    (len + np - 1) / np
  }

  /** No rank of the axis is left without cells. */
  predicate AxisSplits(len: int, np: int) { len >= 1 && np >= 1 && (np - 1) * ChunkOf(len, np) < len }

  function AxisOffset(len: int, np: int, p: int): int
    requires np >= 1
  {
    ChunkOf(len, np) * p
  }

  function AxisSize(len: int, np: int, p: int): int
    requires np >= 1
  {
    if p == np - 1 then ChunkOf(len, np) - (ChunkOf(len, np) * np - len) else ChunkOf(len, np)
  }

  lemma ChunkCovers(len: int, np: int)
    requires len >= 1 && np >= 1
    ensures ChunkOf(len, np) >= 1 && ChunkOf(len, np) * np >= len
  {
    var c := ChunkOf(len, np);
    var t := len + np - 1;
    assert t == c * np + t % np;
    if c <= 0 { MulMono(c, 0, np); }
  }

  /** A rank's cells are never empty, and the ranges follow each other. */
  lemma AxisFacts(len: int, np: int, p: int)
    requires AxisSplits(len, np) && 0 <= p < np
    ensures AxisSize(len, np, p) >= 1 && AxisOffset(len, np, p) >= 0
    ensures p < np - 1 ==> AxisOffset(len, np, p + 1) == AxisOffset(len, np, p) + AxisSize(len, np, p)
    ensures p == np - 1 ==> AxisOffset(len, np, p) + AxisSize(len, np, p) == len
    ensures AxisOffset(len, np, p) + AxisSize(len, np, p) <= len
  {
    var c := ChunkOf(len, np);
    ChunkCovers(len, np);
    MulNonNeg(c, p);
    assert c * np - c * (np - 1) == c by { Spread(c, np - 1); }
    assert c * (p + 1) == c * p + c by { Spread(c, p); }
    assert (np - 1) * c == c * (np - 1);
    if p < np - 1 {
      MulMono(p + 1, np - 1, c);
      assert (p + 1) * c == c * (p + 1);
    }
  }

  /** Exactly when every rank of the axis gets cells. When the ceiling chunk
      uses the length up early, the last rank's size is not positive (and wraps
      around in the source's size_t). */
  lemma AxisSplitsIff(len: int, np: int)
    requires len >= 1 && np >= 1
    ensures AxisSplits(len, np) <==> forall p :: 0 <= p < np ==> AxisSize(len, np, p) >= 1
    ensures !AxisSplits(5, 4) && AxisSize(5, 4, 3) == -1
  {
    if AxisSplits(len, np) {
      forall p | 0 <= p < np ensures AxisSize(len, np, p) >= 1 { AxisFacts(len, np, p); }
    } else {
      var c := ChunkOf(len, np);
      Spread(c, np - 1);
      assert (np - 1) * c == c * (np - 1);
      assert AxisSize(len, np, np - 1) < 1;
    }
  }

  lemma Spread(c: int, k: int)
    ensures c * (k + 1) == c * k + c
  {
  }

  /** Every coordinate belongs to exactly one rank of the axis. */
  lemma AxisOwner(len: int, np: int, p: int, v: int)
    requires AxisSplits(len, np) && 0 <= p < np && 0 <= v < len
    ensures 0 <= v / ChunkOf(len, np) < np
    ensures AxisOffset(len, np, p) <= v < AxisOffset(len, np, p) + AxisSize(len, np, p) <==> p == v / ChunkOf(len, np)
  {
    var c := ChunkOf(len, np);
    ChunkCovers(len, np);
    assert c * np == np * c;
    DivBelow(v, np, c);
    var q := v / c;
    AxisFacts(len, np, p);
    AxisFacts(len, np, q);
    assert q * c == c * q && p * c == c * p;
    if q < p { MulMono(q + 1, p, c); assert (q + 1) * c == q * c + c; }
    if p < q { MulMono(p + 1, q, c); assert (p + 1) * c == p * c + c; }
    if q == np - 1 { } else { Spread(c, q); }
  }

  // ------------------------------------------------------------------
  // Three axes
  // ------------------------------------------------------------------

  datatype ProcGrid = ProcGrid(len: int, np: Point) {
    /** The grids the simulation supports: no axis degenerates. */
    predicate Good() { AxisSplits(len, np.x) && AxisSplits(len, np.y) && AxisSplits(len, np.z) }

    predicate IsRank(q: Point) { 0 <= q.x < np.x && 0 <= q.y < np.y && 0 <= q.z < np.z }

    function Offset(q: Point): Point
      requires Good()
    {
      Point(AxisOffset(len, np.x, q.x), AxisOffset(len, np.y, q.y), AxisOffset(len, np.z, q.z))
    }

    function Size(q: Point): Point
      requires Good()
    {
      Point(AxisSize(len, np.x, q.x), AxisSize(len, np.y, q.y), AxisSize(len, np.z, q.z))
    }

    /** The box a rank declares to the staging servers. */
    function Block(q: Point): (b: BBX)
      requires Good()
      ensures b.Valid() && b.dims == 3
    {
      var o, s := Offset(q), Size(q);
      Box3(o, Point(o.x + s.x - 1, o.y + s.y - 1, o.z + s.z - 1))
    }

    /** The owner of a cell. */
    function Owner(p: Point): Point
      requires Good()
    {
      var cx, cy, cz := ChunkOf(len, np.x), ChunkOf(len, np.y), ChunkOf(len, np.z);
      Point(if cx == 0 then 0 else p.x / cx, if cy == 0 then 0 else p.y / cy, if cz == 0 then 0 else p.z / cz)
    }

    predicate InDomain(p: Point) { 0 <= p.x < len && 0 <= p.y < len && 0 <= p.z < len }
  }

  lemma RankFacts(g: ProcGrid, q: Point)
    requires g.Good() && g.IsRank(q)
    ensures g.Size(q).x >= 1 && g.Size(q).y >= 1 && g.Size(q).z >= 1
    ensures g.Offset(q).x >= 0 && g.Offset(q).y >= 0 && g.Offset(q).z >= 0
    ensures g.Block(q).Proper() && g.Block(q).Lower() == g.Offset(q)
    ensures forall p: Point :: g.Block(q).Has(p) ==> g.InDomain(p)
  {
    AxisFacts(g.len, g.np.x, q.x);
    AxisFacts(g.len, g.np.y, q.y);
    AxisFacts(g.len, g.np.z, q.z);
  }

  /** The ranks' declared boxes tile the cube: every cell is in the box of its
      owner and of no other rank. */
  lemma BlocksTile(g: ProcGrid, p: Point)
    requires g.Good() && g.InDomain(p)
    ensures g.IsRank(g.Owner(p))
    ensures forall q: Point :: g.IsRank(q) ==> (g.Block(q).Has(p) <==> q == g.Owner(p))
  {
    ChunkCovers(g.len, g.np.x);
    ChunkCovers(g.len, g.np.y);
    ChunkCovers(g.len, g.np.z);
    AxisOwner(g.len, g.np.x, 0, p.x);
    AxisOwner(g.len, g.np.y, 0, p.y);
    AxisOwner(g.len, g.np.z, 0, p.z);
    forall q: Point | g.IsRank(q) ensures g.Block(q).Has(p) <==> q == g.Owner(p) {
      AxisOwner(g.len, g.np.x, q.x, p.x);
      AxisOwner(g.len, g.np.y, q.y, p.y);
      AxisOwner(g.len, g.np.z, q.z, p.z);
    }
  }

  // ------------------------------------------------------------------
  // Local storage with one layer of ghosts
  // ------------------------------------------------------------------

  /** l2i: position of local coordinates in an array of interior size s. */
  function L2I(s: Point, p: Point): int { p.x + p.y * (s.x + 2) + p.z * ((s.x + 2) * (s.y + 2)) }

  /** The local array as a box: 0 and size + 1 are ghosts. */
  function LocalBox(s: Point): (b: BBX)
    ensures b.Valid() && b.dims == 3 && b.Lower() == ORIGIN && b.Upper() == Point(s.x + 1, s.y + 1, s.z + 1)
  {
    Box3(ORIGIN, Point(s.x + 1, s.y + 1, s.z + 1))
  }

  function Cells(s: Point): int { LocalBox(s).Volume() }

  predicate Positive3(s: Point) { s.x >= 1 && s.y >= 1 && s.z >= 1 }
  predicate Local(s: Point, p: Point) { 0 <= p.x <= s.x + 1 && 0 <= p.y <= s.y + 1 && 0 <= p.z <= s.z + 1 }
  predicate Interior(s: Point, p: Point) { 1 <= p.x <= s.x && 1 <= p.y <= s.y && 1 <= p.z <= s.z }

  lemma L2IIsIndex(s: Point, p: Point)
    ensures L2I(s, p) == LocalBox(s).Index(p)
    ensures Local(s, p) <==> LocalBox(s).Has(p)
  {
    var b := LocalBox(s);
    assert b.Lo(0) == 0 && b.Lo(1) == 0 && b.Lo(2) == 0 && b.Ext(0) == s.x + 2 && b.Ext(1) == s.y + 2;
    assert (s.y + 2) * (s.x + 2) == (s.x + 2) * (s.y + 2);
  }

  lemma L2IRange(s: Point, p: Point)
    requires Positive3(s) && Local(s, p)
    ensures 0 <= L2I(s, p) < Cells(s)
  {
    L2IIsIndex(s, p);
    IndexInRange(LocalBox(s), p);
  }

  lemma L2IInjective(s: Point, p: Point, q: Point)
    requires Positive3(s) && Local(s, p) && Local(s, q) && L2I(s, p) == L2I(s, q)
    ensures p == q
  {
    L2IIsIndex(s, p);
    L2IIsIndex(s, q);
    IndexInjective(LocalBox(s), p, q);
  }

  /** Local coordinates stored at a position. */
  function LocalAt(s: Point, i: int): Point
    requires Positive3(s) && 0 <= i < Cells(s)
  {
    Cell(LocalBox(s), i)
  }

  lemma LocalAtIndex(s: Point, i: int)
    requires Positive3(s) && 0 <= i < Cells(s)
    ensures Local(s, LocalAt(s, i)) && L2I(s, LocalAt(s, i)) == i
  {
    IndexSurjective(LocalBox(s), i);
    L2IIsIndex(s, LocalAt(s, i));
  }

  lemma LocalAtL2I(s: Point, p: Point)
    requires Positive3(s) && Local(s, p)
    ensures 0 <= L2I(s, p) < Cells(s) && LocalAt(s, L2I(s, p)) == p
  {
    L2IRange(s, p);
    LocalAtIndex(s, L2I(s, p));
    L2IInjective(s, LocalAt(s, L2I(s, p)), p);
  }
}
