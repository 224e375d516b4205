/** splitBound and splitReduceBBX: cutting a box along the faces of another. */
module Split {
  import opened Outcomes
  import opened Boxes

  /** Bound::splitBound. The closing throw of the source is dead: once the
      bounds meet and differ, one of the three tests holds. */
  function SplitBound(self: Bound, query: Bound): seq<Bound> {
    if query.ub < self.lb || query.lb > self.ub then []
    else if self == query then [self]
    else if query.lb <= self.lb && query.ub >= self.lb && query.ub < self.ub then
      [Bound(self.lb, query.ub), Bound(query.ub + 1, self.ub)]
    else if query.lb > self.lb && query.ub < self.ub then
      [Bound(self.lb, query.lb - 1), query, Bound(query.ub + 1, self.ub)]
    else if query.lb <= self.ub && query.ub >= self.ub then
      [Bound(self.lb, query.lb - 1), Bound(query.lb, self.ub)]
    else
      assert false; []
  }

  /** The pieces are non-empty, ordered, contiguous and add up to the bound. */
  predicate Tiles(pieces: seq<Bound>, b: Bound) {
    && |pieces| > 0
    && pieces[0].lb == b.lb && pieces[|pieces| - 1].ub == b.ub
    && (forall i :: 0 <= i < |pieces| ==> pieces[i].lb <= pieces[i].ub)
    && (forall i :: 0 < i < |pieces| ==> pieces[i].lb == pieces[i - 1].ub + 1)
  }

  /** splitBound does its job exactly when the query does not reach beyond the
      bound on one side while covering it on the other. */
  lemma SplitBoundExactIff(self: Bound, query: Bound)
    requires self.lb <= self.ub && query.lb <= query.ub && OverlapBound(self, query).Some?
    ensures Tiles(SplitBound(self, query), self) && OverlapBound(self, query).value in SplitBound(self, query)
       <==> self == query || query.lb > self.lb || query.ub < self.ub
  {
    var s := SplitBound(self, query);
    if self == query {
      assert s[0] == self;
    } else if query.ub < self.ub && query.lb <= self.lb {
      assert s[0] == OverlapBound(self, query).value;
    } else if query.lb > self.lb {
      assert s[1] == OverlapBound(self, query).value;
    } else {
      assert s[0].ub < s[0].lb;
    }
  }

  /** The call made by the coverage test: the query lies inside the bound. */
  lemma SplitBoundInside(self: Bound, query: Bound)
    requires self.lb <= query.lb <= query.ub <= self.ub
    ensures Tiles(SplitBound(self, query), self) && query in SplitBound(self, query)
    ensures |SplitBound(self, query)| <= 3
  {
    SplitBoundExactIff(self, query);
  }

  // ------------------------------------------------------------------
  // The grid of cells cut out by three lists of bounds
  // ------------------------------------------------------------------

  /** One box of the grid; a 2-D box has Bound(0, 0) on its third axis. */
  datatype Brick = Brick(a: Bound, b: Bound, c: Bound) {
    predicate Has(p: Point) { InBound(p.x, a) && InBound(p.y, b) && InBound(p.z, c) }
    predicate Proper() { a.lb <= a.ub && b.lb <= b.ub && c.lb <= c.ub }
    function Volume(): int { Len(a) * Len(b) * Len(c) }
  }

  function Len(b: Bound): int { b.ub - b.lb + 1 }

  function Line(a: Bound, b: Bound, cs: seq<Bound>, skip: Brick): seq<Brick> {
    if cs == [] then []
    else
      var last := Brick(a, b, cs[|cs| - 1]);
      Line(a, b, cs[..|cs| - 1], skip) + (if last == skip then [] else [last])
  }

  function Plane(a: Bound, bs: seq<Bound>, cs: seq<Bound>, skip: Brick): seq<Brick> {
    if bs == [] then []
    else Plane(a, bs[..|bs| - 1], cs, skip) + Line(a, bs[|bs| - 1], cs, skip)
  }

  function Grid(as_: seq<Bound>, bs: seq<Bound>, cs: seq<Bound>, skip: Brick): seq<Brick> {
    if as_ == [] then []
    else Grid(as_[..|as_| - 1], bs, cs, skip) + Plane(as_[|as_| - 1], bs, cs, skip)
  }

  function ToBox(dims: nat, k: Brick): BBX {
    BBX(dims, 0, if dims == 2 then [k.a, k.b] else [k.a, k.b, k.c])
  }

  function ToBoxes(dims: nat, ks: seq<Brick>): (r: seq<BBX>)
    ensures |r| == |ks|
  {
    seq(|ks|, i requires 0 <= i < |ks| => ToBox(dims, ks[i]))
  }

  /** The skipped brick: the overlap in 2-D, the query itself in 3-D. */
  function Skipped(dims: nat, overlap: BBX, query: BBX): Brick
    requires 2 <= dims <= 3 && |overlap.bounds| == dims && |query.bounds| == dims
  {
    if dims == 2 then Brick(overlap.bounds[0], overlap.bounds[1], Bound(0, 0))
    else Brick(query.bounds[0], query.bounds[1], query.bounds[2])
  }

  function Bricks(original: BBX, query: BBX): seq<Brick>
    requires original.Valid() && query.Valid() && original.dims == query.dims && original.dims >= 2
    requires Meets(original, query)
  {
    Grid(SplitBound(original.bounds[0], query.bounds[0]),
         SplitBound(original.bounds[1], query.bounds[1]),
         if original.dims == 2 then [Bound(0, 0)] else SplitBound(original.bounds[2], query.bounds[2]),
         Skipped(original.dims, Clip(original, query), query))
  }

  function SplitReduce(original: BBX, query: BBX): Result<seq<BBX>>
    requires |original.bounds| == original.dims && |query.bounds| == query.dims
  {
    if query.dims != original.dims then Ok([])
    else
      var overlap :- OverlapBBX(original, query);
      if overlap.None? then Err(NoOverlap)
      else if original.dims == 1 then Ok([])   // no branch for one axis
      else Ok(ToBoxes(original.dims, Bricks(original, query)))
  }

  method SplitReduceBBX(original: BBX, query: BBX) returns (r: Result<seq<BBX>>)
    requires |original.bounds| == original.dims && |query.bounds| == query.dims
    ensures r == SplitReduce(original, query)
  {
    if query.dims != original.dims { return Ok([]); }
    var o := GetOverlapBBX(original, query);
    if o.Err? { return Err(o.error); }
    if o.value.None? { return Err(NoOverlap); }
    var overlap := o.value.value;
    var list: seq<BBX> := [];
    if original.dims == 2 {
      list := SplitReduce2(original, query, overlap);
    }
    if original.dims == 3 {
      list := SplitReduce3(original, query);
    }
    r := Ok(list);
  }

  /** The 2-D branch. */
  method SplitReduce2(original: BBX, query: BBX, overlap: BBX) returns (list: seq<BBX>)
    requires original.Valid() && query.Valid() && original.dims == query.dims == 2
    requires Meets(original, query) && overlap == Clip(original, query)
    ensures list == ToBoxes(2, Bricks(original, query))
  {
    var list0 := SplitBound(original.bounds[0], query.bounds[0]);
    var list1 := SplitBound(original.bounds[1], query.bounds[1]);
    ghost var skip, c := Brick(overlap.bounds[0], overlap.bounds[1], Bound(0, 0)), [Bound(0, 0)];
    list := [];
    ghost var bricks: seq<Brick> := [];
    for i := 0 to |list0|
      invariant bricks == Grid(list0[..i], list1, c, skip) && list == ToBoxes(2, bricks)
    {
      list, bricks := SplitRow(list0[i], list1, overlap, list, bricks);
      assert list0[..i + 1][..i] == list0[..i];
    }
    assert list0[..|list0|] == list0;
  }

  /** The inner loop of the 2-D branch. */
  method SplitRow(v0: Bound, list1: seq<Bound>, overlap: BBX, list: seq<BBX>, ghost bricks: seq<Brick>)
    returns (list': seq<BBX>, ghost bricks': seq<Brick>)
    requires overlap.Valid() && overlap.dims == 2 && list == ToBoxes(2, bricks)
    ensures bricks' == bricks + Plane(v0, list1, [Bound(0, 0)],
                                      Brick(overlap.bounds[0], overlap.bounds[1], Bound(0, 0)))
    ensures list' == ToBoxes(2, bricks')
  {
    ghost var skip := Brick(overlap.bounds[0], overlap.bounds[1], Bound(0, 0));
    list', bricks' := list, bricks;
    for j := 0 to |list1|
      invariant bricks' == bricks + Plane(v0, list1[..j], [Bound(0, 0)], skip) && list' == ToBoxes(2, bricks')
    {
      var v1 := list1[j];
      assert list1[..j + 1][..j] == list1[..j];
      OneBrick(v0, v1, skip);
      if v0 == overlap.bounds[0] && v1 == overlap.bounds[1] { continue; }
      list', bricks' := list' + [BBX(2, 0, [v0, v1])], bricks' + [Brick(v0, v1, Bound(0, 0))];
    }
    assert list1[..|list1|] == list1;
  }

  lemma OneBrick(v0: Bound, v1: Bound, skip: Brick)
    ensures var k := Brick(v0, v1, Bound(0, 0)); Line(v0, v1, [Bound(0, 0)], skip) == if k == skip then [] else [k]
  {
    assert [Bound(0, 0)][..0] == [] && Line(v0, v1, [], skip) == [];
  }

  method SplitReduce3(original: BBX, query: BBX) returns (list: seq<BBX>)
    requires original.Valid() && query.Valid() && original.dims == query.dims == 3
    requires Meets(original, query)
    ensures list == ToBoxes(3, Bricks(original, query))
  {
    var list0 := SplitBound(original.bounds[0], query.bounds[0]);
    var list1 := SplitBound(original.bounds[1], query.bounds[1]);
    var list2 := SplitBound(original.bounds[2], query.bounds[2]);
    ghost var skip := Brick(query.bounds[0], query.bounds[1], query.bounds[2]);
    list := [];
    ghost var bricks: seq<Brick> := [];
    for i := 0 to |list0|
      invariant bricks == Grid(list0[..i], list1, list2, skip) && list == ToBoxes(3, bricks)
    {
      ghost var g := bricks;
      for j := 0 to |list1|
        invariant bricks == g + Plane(list0[i], list1[..j], list2, skip) && list == ToBoxes(3, bricks)
      {
        list, bricks := SplitLine(list0[i], list1[j], list2, query, list, bricks);
        assert list1[..j + 1][..j] == list1[..j];
      }
      assert list1[..|list1|] == list1;
      assert list0[..i + 1][..i] == list0[..i];
    }
    assert list0[..|list0|] == list0;
  }

  /** The innermost loop of the 3-D branch. */
  method SplitLine(v0: Bound, v1: Bound, list2: seq<Bound>, query: BBX, list: seq<BBX>, ghost bricks: seq<Brick>)
    returns (list': seq<BBX>, ghost bricks': seq<Brick>)
    requires query.Valid() && query.dims == 3 && list == ToBoxes(3, bricks)
    ensures bricks' == bricks + Line(v0, v1, list2, Brick(query.bounds[0], query.bounds[1], query.bounds[2]))
    ensures list' == ToBoxes(3, bricks')
  {
    ghost var skip := Brick(query.bounds[0], query.bounds[1], query.bounds[2]);
    list', bricks' := list, bricks;
    for k := 0 to |list2|
      invariant bricks' == bricks + Line(v0, v1, list2[..k], skip) && list' == ToBoxes(3, bricks')
    {
      var v2 := list2[k];
      assert list2[..k + 1][..k] == list2[..k];
      if v0 == query.bounds[0] && v1 == query.bounds[1] && v2 == query.bounds[2] { continue; }
      list', bricks' := list' + [BBX(3, 0, [v0, v1, v2])], bricks' + [Brick(v0, v1, v2)];
    }
    assert list2[..|list2|] == list2;
  }

  // ------------------------------------------------------------------
  // What the grid covers
  // ------------------------------------------------------------------

  ghost predicate InSome(p: Point, ks: seq<Brick>) {
    exists i :: 0 <= i < |ks| && ks[i].Has(p)
  }

  ghost predicate Apart(ks: seq<Brick>) {
    forall i, j, p: Point :: 0 <= i < j < |ks| && ks[i].Has(p) ==> !ks[j].Has(p)
  }

  ghost predicate ProperBricks(ks: seq<Brick>) {
    forall i :: 0 <= i < |ks| ==> ks[i].Proper()
  }

  function SumVolume(ks: seq<Brick>): int {
    if ks == [] then 0 else SumVolume(ks[..|ks| - 1]) + ks[|ks| - 1].Volume()
  }

  lemma SumConcat(xs: seq<Brick>, ys: seq<Brick>)
    ensures SumVolume(xs + ys) == SumVolume(xs) + SumVolume(ys)
  {
    if ys == [] {
      assert xs + ys == xs;
    } else {
      SumConcat(xs, ys[..|ys| - 1]);
      assert (xs + ys)[..|xs + ys| - 1] == xs + ys[..|ys| - 1];
    }
  }

  lemma InSomeConcat(p: Point, xs: seq<Brick>, ys: seq<Brick>)
    ensures InSome(p, xs + ys) <==> InSome(p, xs) || InSome(p, ys)
  {
    var zs := xs + ys;
    if i :| 0 <= i < |xs| && xs[i].Has(p) { assert zs[i].Has(p); }
    if i :| 0 <= i < |ys| && ys[i].Has(p) { assert zs[|xs| + i].Has(p); }
  }

  /** A list of bricks that is a box with one brick cut out of it: `cut` says
      whether `skip` is one of the grid's cells. */
  ghost predicate Carves(ks: seq<Brick>, whole: Brick, cut: bool, skip: Brick, count: int) {
    && ProperBricks(ks)
    && Apart(ks)
    && (forall p: Point :: InSome(p, ks) <==> whole.Has(p) && !(cut && skip.Has(p)))
    && SumVolume(ks) == whole.Volume() - (if cut then skip.Volume() else 0)
    && |ks| == count - (if cut then 1 else 0)
  }

  /** Two carved boxes side by side make a carved box. */
  lemma CarveJoin(xs: seq<Brick>, ys: seq<Brick>, w1: Brick, w2: Brick, w: Brick,
                  cut1: bool, cut2: bool, skip: Brick, n1: int, n2: int)
    requires Carves(xs, w1, cut1, skip, n1) && Carves(ys, w2, cut2, skip, n2)
    requires !(cut1 && cut2)
    requires forall p: Point :: w.Has(p) <==> w1.Has(p) || w2.Has(p)
    requires forall p: Point :: !(w1.Has(p) && w2.Has(p))
    requires cut1 ==> forall p: Point :: skip.Has(p) ==> w1.Has(p)
    requires cut2 ==> forall p: Point :: skip.Has(p) ==> w2.Has(p)
    requires w.Volume() == w1.Volume() + w2.Volume()
    ensures Carves(xs + ys, w, cut1 || cut2, skip, n1 + n2)
  {
    var zs := xs + ys;
    SumConcat(xs, ys);
    forall p: Point ensures InSome(p, zs) <==> w.Has(p) && !((cut1 || cut2) && skip.Has(p)) {
      InSomeConcat(p, xs, ys);
    }
    forall i, j, p: Point | 0 <= i < j < |zs| && zs[i].Has(p) ensures !zs[j].Has(p) {
      if i < |xs| <= j {
        assert InSome(p, xs);
        assert w1.Has(p);
        assert ys[j - |xs|].Has(p) ==> InSome(p, ys);
      }
    }
  }

  lemma TilesPrefix(s: seq<Bound>, b: Bound)
    requires Tiles(s, b) && |s| > 1
    ensures Tiles(s[..|s| - 1], Bound(b.lb, s[|s| - 1].lb - 1))
  {
  }

  lemma TilesSpan(s: seq<Bound>, b: Bound)
    requires Tiles(s, b)
    ensures b.lb <= b.ub
    ensures forall i :: 0 <= i < |s| ==> b.lb <= s[i].lb && s[i].ub <= b.ub
  {
    if |s| > 1 {
      TilesPrefix(s, b);
      TilesSpan(s[..|s| - 1], Bound(b.lb, s[|s| - 1].lb - 1));
    }
  }

  /** The last piece occurs once. */
  lemma TilesLast(s: seq<Bound>, b: Bound)
    requires Tiles(s, b)
    ensures s[|s| - 1] !in s[..|s| - 1]
  {
    if |s| > 1 {
      TilesPrefix(s, b);
      TilesSpan(s[..|s| - 1], Bound(b.lb, s[|s| - 1].lb - 1));
    }
  }

  lemma VolumeSplit(k: int, m: int, n: int)
    ensures k * (m + n) == k * m + k * n
  {
  }

  lemma VolumeSplitMid(k: int, m: int, n: int, l: int)
    ensures k * (m + n) * l == k * m * l + k * n * l
  {
    assert k * (m + n) == k * m + k * n;
  }

  /** Every axis of the inner brick lies within the outer one. */
  predicate Within(k: Brick, w: Brick) {
    w.a.lb <= k.a.lb && k.a.ub <= w.a.ub && w.b.lb <= k.b.lb && k.b.ub <= w.b.ub && w.c.lb <= k.c.lb && k.c.ub <= w.c.ub
  }

  predicate Adjacent(f: Bound, g: Bound) { f.lb <= f.ub && f.ub + 1 == g.lb && g.lb <= g.ub }
  function Joined(f: Bound, g: Bound): Bound { Bound(f.lb, g.ub) }

  lemma JoinZ(xs: seq<Brick>, ys: seq<Brick>, a: Bound, b: Bound, f: Bound, g: Bound,
              cut1: bool, cut2: bool, skip: Brick, n1: int, n2: int)
    requires Carves(xs, Brick(a, b, f), cut1, skip, n1) && Carves(ys, Brick(a, b, g), cut2, skip, n2)
    requires !(cut1 && cut2) && Adjacent(f, g)
    requires (cut1 ==> Within(skip, Brick(a, b, f))) && (cut2 ==> Within(skip, Brick(a, b, g)))
    ensures Carves(xs + ys, Brick(a, b, Joined(f, g)), cut1 || cut2, skip, n1 + n2)
  {
    VolumeSplit(Len(a) * Len(b), Len(f), Len(g));
    CarveJoin(xs, ys, Brick(a, b, f), Brick(a, b, g), Brick(a, b, Joined(f, g)), cut1, cut2, skip, n1, n2);
  }

  lemma JoinY(xs: seq<Brick>, ys: seq<Brick>, a: Bound, f: Bound, g: Bound, c: Bound,
              cut1: bool, cut2: bool, skip: Brick, n1: int, n2: int)
    requires Carves(xs, Brick(a, f, c), cut1, skip, n1) && Carves(ys, Brick(a, g, c), cut2, skip, n2)
    requires !(cut1 && cut2) && Adjacent(f, g)
    requires (cut1 ==> Within(skip, Brick(a, f, c))) && (cut2 ==> Within(skip, Brick(a, g, c)))
    ensures Carves(xs + ys, Brick(a, Joined(f, g), c), cut1 || cut2, skip, n1 + n2)
  {
    VolumeSplitMid(Len(a), Len(f), Len(g), Len(c));
    CarveJoin(xs, ys, Brick(a, f, c), Brick(a, g, c), Brick(a, Joined(f, g), c), cut1, cut2, skip, n1, n2);
  }

  lemma JoinX(xs: seq<Brick>, ys: seq<Brick>, f: Bound, g: Bound, b: Bound, c: Bound,
              cut1: bool, cut2: bool, skip: Brick, n1: int, n2: int)
    requires Carves(xs, Brick(f, b, c), cut1, skip, n1) && Carves(ys, Brick(g, b, c), cut2, skip, n2)
    requires !(cut1 && cut2) && Adjacent(f, g)
    requires (cut1 ==> Within(skip, Brick(f, b, c))) && (cut2 ==> Within(skip, Brick(g, b, c)))
    ensures Carves(xs + ys, Brick(Joined(f, g), b, c), cut1 || cut2, skip, n1 + n2)
  {
    VolumeSplitFirst(Len(f), Len(g), Len(b), Len(c));
    CarveJoin(xs, ys, Brick(f, b, c), Brick(g, b, c), Brick(Joined(f, g), b, c), cut1, cut2, skip, n1, n2);
  }

  lemma VolumeSplitFirst(m: int, n: int, k: int, l: int)
    ensures (m + n) * k * l == m * k * l + n * k * l
  {
    assert (m + n) * k == m * k + n * k;
  }

  /** A single brick, kept or skipped. */
  lemma UnitCarves(k: Brick, skip: Brick)
    requires k.Proper()
    ensures Carves(if k == skip then [] else [k], k, k == skip, skip, 1)
  {
    var ys := if k == skip then [] else [k];
    if k != skip {
      assert ys[..0] == [] && SumVolume(ys[..0]) == 0;
      assert forall p: Point :: k.Has(p) ==> ys[0].Has(p);
    }
  }

  /** The facts an induction over the front of a tiling needs. */
  lemma TilesStep(s: seq<Bound>, b: Bound) returns (front: Bound, last: Bound)
    requires Tiles(s, b) && |s| > 1
    ensures last == s[|s| - 1] && Tiles(s[..|s| - 1], front) && Adjacent(front, last) && Joined(front, last) == b
    ensures forall k :: k in s <==> k in s[..|s| - 1] || k == last
    ensures forall k :: k in s[..|s| - 1] ==> front.lb <= k.lb && k.ub <= front.ub
    ensures last !in s[..|s| - 1]
  {
    var n := |s| - 1;
    front, last := Bound(b.lb, s[n].lb - 1), s[n];
    TilesPrefix(s, b);
    TilesLast(s, b);
    TilesSpan(s[..n], front);
    assert s == s[..n] + [last];
  }

  /** Multiplication by repeated addition, one row of the grid at a time. */
  function Times(m: nat, n: nat): nat { if m == 0 then 0 else Times(m - 1, n) + n }

  lemma {:induction false} LineCarves(a: Bound, b: Bound, cs: seq<Bound>, c: Bound, skip: Brick)
    requires Tiles(cs, c) && a.lb <= a.ub && b.lb <= b.ub
    ensures Carves(Line(a, b, cs, skip), Brick(a, b, c), skip.a == a && skip.b == b && skip.c in cs, skip, |cs|)
  {
    var n := |cs| - 1;
    var ys := if Brick(a, b, cs[n]) == skip then [] else [Brick(a, b, cs[n])];
    UnitCarves(Brick(a, b, cs[n]), skip);
    if n == 0 {
      assert Line(a, b, cs[..0], skip) == [] && [] + ys == ys && cs == [cs[0]];
    } else {
      var front, last := TilesStep(cs, c);
      LineCarves(a, b, cs[..n], front, skip);
      JoinZ(Line(a, b, cs[..n], skip), ys, a, b, front, last,
            skip.a == a && skip.b == b && skip.c in cs[..n], Brick(a, b, last) == skip, skip, n, 1);
    }
  }

  lemma {:induction false} PlaneCarves(a: Bound, bs: seq<Bound>, b: Bound, cs: seq<Bound>, c: Bound, skip: Brick)
    requires Tiles(bs, b) && Tiles(cs, c) && a.lb <= a.ub
    ensures Carves(Plane(a, bs, cs, skip), Brick(a, b, c), skip.a == a && skip.b in bs && skip.c in cs, skip,
                   Times(|bs|, |cs|))
  {
    var n := |bs| - 1;
    var ys := Line(a, bs[n], cs, skip);
    LineCarves(a, bs[n], cs, c, skip);
    if n == 0 {
      assert Plane(a, bs[..0], cs, skip) == [] && [] + ys == ys && bs == [bs[0]];
    } else {
      var front, last := TilesStep(bs, b);
      TilesSpan(cs, c);
      PlaneCarves(a, bs[..n], front, cs, c, skip);
      JoinY(Plane(a, bs[..n], cs, skip), ys, a, front, last, c,
            skip.a == a && skip.b in bs[..n] && skip.c in cs, skip.a == a && skip.b == last && skip.c in cs,
            skip, Times(n, |cs|), |cs|);
    }
  }

  lemma {:induction false} GridCarves(as_: seq<Bound>, a: Bound, bs: seq<Bound>, b: Bound, cs: seq<Bound>, c: Bound,
                                      skip: Brick)
    requires Tiles(as_, a) && Tiles(bs, b) && Tiles(cs, c)
    ensures Carves(Grid(as_, bs, cs, skip), Brick(a, b, c), skip.a in as_ && skip.b in bs && skip.c in cs, skip,
                   Times(|as_|, Times(|bs|, |cs|)))
  {
    var n := |as_| - 1;
    var ys := Plane(as_[n], bs, cs, skip);
    PlaneCarves(as_[n], bs, b, cs, c, skip);
    if n == 0 {
      assert Grid(as_[..0], bs, cs, skip) == [] && [] + ys == ys && as_ == [as_[0]];
    } else {
      var front, last := TilesStep(as_, a);
      TilesSpan(bs, b);
      TilesSpan(cs, c);
      GridCarves(as_[..n], front, bs, b, cs, c, skip);
      JoinX(Grid(as_[..n], bs, cs, skip), ys, front, last, b, c,
            skip.a in as_[..n] && skip.b in bs && skip.c in cs, skip.a == last && skip.b in bs && skip.c in cs,
            skip, Times(n, Times(|bs|, |cs|)), Times(|bs|, |cs|));
    }
  }

  // ------------------------------------------------------------------
  // Split conservation, on boxes
  // ------------------------------------------------------------------

  lemma {:induction false} LineMember(a: Bound, b: Bound, cs: seq<Bound>, skip: Brick)
    ensures forall k :: k in Line(a, b, cs, skip) <==> k.a == a && k.b == b && k.c in cs && k != skip
  {
    if cs != [] {
      LineMember(a, b, cs[..|cs| - 1], skip);
      assert cs == cs[..|cs| - 1] + [cs[|cs| - 1]];
    }
  }

  lemma {:induction false} PlaneMember(a: Bound, bs: seq<Bound>, cs: seq<Bound>, skip: Brick)
    ensures forall k :: k in Plane(a, bs, cs, skip) <==> k.a == a && k.b in bs && k.c in cs && k != skip
  {
    if bs != [] {
      PlaneMember(a, bs[..|bs| - 1], cs, skip);
      LineMember(a, bs[|bs| - 1], cs, skip);
      assert bs == bs[..|bs| - 1] + [bs[|bs| - 1]];
    }
  }

  lemma {:induction false} GridMember(as_: seq<Bound>, bs: seq<Bound>, cs: seq<Bound>, skip: Brick)
    ensures forall k :: k in Grid(as_, bs, cs, skip) <==> k.a in as_ && k.b in bs && k.c in cs && k != skip
  {
    if as_ != [] {
      GridMember(as_[..|as_| - 1], bs, cs, skip);
      PlaneMember(as_[|as_| - 1], bs, cs, skip);
      assert as_ == as_[..|as_| - 1] + [as_[|as_| - 1]];
    }
  }

  ghost predicate InSomeBox(p: Point, list: seq<BBX>)
    requires forall i :: 0 <= i < |list| ==> list[i].Valid()
  {
    exists i :: 0 <= i < |list| && list[i].Has(p)
  }

  ghost predicate Disjoint(list: seq<BBX>)
    requires forall i :: 0 <= i < |list| ==> list[i].Valid()
  {
    forall i, j, p: Point :: 0 <= i < j < |list| && list[i].Has(p) ==> !list[j].Has(p)
  }

  function TotalVolume(list: seq<BBX>): int
    requires forall i :: 0 <= i < |list| ==> list[i].Valid()
  {
    if list == [] then 0 else TotalVolume(list[..|list| - 1]) + list[|list| - 1].Volume()
  }

  /** The list is the box minus the query: well-formed non-empty boxes of the
      same dimension and a fresh status, no cell twice, no cell lost. */
  ghost predicate Remainder(original: BBX, query: BBX, list: seq<BBX>)
    requires original.Valid() && query.Valid()
  {
    && (forall i :: 0 <= i < |list| ==> list[i].Proper() && list[i].dims == original.dims && list[i].status == 0)
    && Disjoint(list)
    && (forall p: Point :: InSomeBox(p, list) <==> original.Has(p) && !query.Has(p))
  }

  function AsBrick(b: BBX): Brick
    requires b.Valid()
  {
    Brick(Bound(b.Lo(0), b.Hi(0)), Bound(b.Lo(1), b.Hi(1)), Bound(b.Lo(2), b.Hi(2)))
  }

  /** Boxes and bricks describe the same cells. */
  lemma BoxesOfBricks(dims: nat, ks: seq<Brick>)
    requires 2 <= dims <= 3
    requires dims == 2 ==> forall k :: k in ks ==> k.c == Bound(0, 0)
    ensures forall i :: 0 <= i < |ks| ==> ToBoxes(dims, ks)[i].Valid() && AsBrick(ToBoxes(dims, ks)[i]) == ks[i]
    ensures forall i, p: Point :: 0 <= i < |ks| ==> (ToBoxes(dims, ks)[i].Has(p) <==> ks[i].Has(p))
  {
    forall i | 0 <= i < |ks| ensures AsBrick(ToBoxes(dims, ks)[i]) == ks[i] {
      assert ks[i] in ks;
    }
  }

  lemma {:induction false} VolumeOfBricks(dims: nat, ks: seq<Brick>)
    requires 2 <= dims <= 3
    requires dims == 2 ==> forall k :: k in ks ==> k.c == Bound(0, 0)
    ensures forall i :: 0 <= i < |ks| ==> ToBoxes(dims, ks)[i].Valid()
    ensures TotalVolume(ToBoxes(dims, ks)) == SumVolume(ks)
  {
    BoxesOfBricks(dims, ks);
    if ks != [] {
      VolumeOfBricks(dims, ks[..|ks| - 1]);
      assert ToBoxes(dims, ks)[..|ks| - 1] == ToBoxes(dims, ks[..|ks| - 1]);
      assert AsBrick(ToBoxes(dims, ks)[|ks| - 1]) == ks[|ks| - 1];
    }
  }

  /** The axes tile: no axis of the query strictly covers that of the box. */
  predicate NoAxisCovered(original: BBX, query: BBX)
    requires original.Valid() && query.Valid() && original.dims == query.dims
  {
    forall i :: 0 <= i < original.dims ==>
      original.bounds[i] == query.bounds[i] || query.Lo(i) > original.Lo(i) || query.Hi(i) < original.Hi(i)
  }

  /** When every axis tiles, the grid of bricks is the box with at most the
      skipped brick cut out. */
  lemma BricksCarve(original: BBX, query: BBX)
    requires original.Proper() && query.Proper() && original.dims == query.dims && original.dims >= 2
    requires Meets(original, query) && NoAxisCovered(original, query)
    ensures var skip := Skipped(original.dims, Clip(original, query), query);
      var cut := original.dims == 2 || Inside(query, original);
      && Carves(Bricks(original, query), AsBrick(original), cut, skip,
                |Bricks(original, query)| + (if cut then 1 else 0))
      && (cut ==> skip == AsBrick(Clip(original, query)))
      && (cut ==> |Bricks(original, query)| <= (if original.dims == 2 then 8 else 26))
      && (original.dims == 2 ==> forall k :: k in Bricks(original, query) ==> k.c == Bound(0, 0))
  {
    var as_ := SplitBound(original.bounds[0], query.bounds[0]);
    var bs := SplitBound(original.bounds[1], query.bounds[1]);
    var cs := if original.dims == 2 then [Bound(0, 0)] else SplitBound(original.bounds[2], query.bounds[2]);
    var skip := Skipped(original.dims, Clip(original, query), query);
    var w := AsBrick(original);
    AxisTiles(original, query, 0);
    AxisTiles(original, query, 1);
    if original.dims == 3 { AxisTiles(original, query, 2); }
    assert Tiles(cs, w.c);
    SkippedInGrid(original, query, as_, bs, cs);
    GridMember(as_, bs, cs, skip);
    CountAtMost(|as_|, |bs|, |cs|);
    GridCarves(as_, w.a, bs, w.b, cs, w.c, skip);
  }

  lemma AxisTiles(original: BBX, query: BBX, i: nat)
    requires original.Proper() && query.Proper() && original.dims == query.dims && i < original.dims
    requires Meets(original, query) && NoAxisCovered(original, query)
    ensures var s := SplitBound(original.bounds[i], query.bounds[i]);
      && Tiles(s, original.bounds[i]) && |s| <= 3
      && Clip(original, query).bounds[i] in s
      && (query.bounds[i] in s <==> original.Lo(i) <= query.Lo(i) && query.Hi(i) <= original.Hi(i))
  {
    var a, b := original.bounds[i], query.bounds[i];
    assert a.lb == original.Lo(i) && b.lb == query.Lo(i) && a.ub == original.Hi(i) && b.ub == query.Hi(i);
    assert OverlapBound(a, b).Some?;
    SplitBoundExactIff(a, b);
    TilesSpan(SplitBound(a, b), a);
  }

  /** Is the skipped brick a cell of the grid? */
  lemma SkippedInGrid(original: BBX, query: BBX, as_: seq<Bound>, bs: seq<Bound>, cs: seq<Bound>)
    requires original.Proper() && query.Proper() && original.dims == query.dims && original.dims >= 2
    requires Meets(original, query) && NoAxisCovered(original, query)
    requires as_ == SplitBound(original.bounds[0], query.bounds[0])
    requires bs == SplitBound(original.bounds[1], query.bounds[1])
    requires cs == if original.dims == 2 then [Bound(0, 0)] else SplitBound(original.bounds[2], query.bounds[2])
    ensures var skip := Skipped(original.dims, Clip(original, query), query);
      && ((skip.a in as_ && skip.b in bs && skip.c in cs) <==> (original.dims == 2 || Inside(query, original)))
      && (original.dims == 2 || Inside(query, original) ==> skip == AsBrick(Clip(original, query)))
  {
    AxisTiles(original, query, 0);
    AxisTiles(original, query, 1);
    if original.dims == 3 { SkippedInGrid3(original, query, as_, bs, cs); }
  }

  lemma SkippedInGrid3(original: BBX, query: BBX, as_: seq<Bound>, bs: seq<Bound>, cs: seq<Bound>)
    requires original.Proper() && query.Proper() && original.dims == query.dims == 3
    requires Meets(original, query) && NoAxisCovered(original, query)
    requires as_ == SplitBound(original.bounds[0], query.bounds[0])
    requires bs == SplitBound(original.bounds[1], query.bounds[1])
    requires cs == SplitBound(original.bounds[2], query.bounds[2])
    ensures (query.bounds[0] in as_ && query.bounds[1] in bs && query.bounds[2] in cs) <==> Inside(query, original)
    ensures Inside(query, original) ==> Skipped(3, Clip(original, query), query) == AsBrick(Clip(original, query))
  {
    AxisTiles(original, query, 0);
    AxisTiles(original, query, 1);
    AxisTiles(original, query, 2);
    if Inside(query, original) { InsideMeets(original, query); }
  }

  lemma CountAtMost(m: nat, n: nat, k: nat)
    requires m <= 3 && n <= 3 && k <= 3
    ensures Times(m, Times(n, k)) <= if k <= 1 then 9 else 27
  {
    assert Times(n, k) <= if k <= 1 then 3 else 9 by {
      assert Times(0, k) == 0 && Times(1, k) == k && Times(2, k) == k + k && Times(3, k) == k + k + k;
    }
    var t := Times(n, k);
    assert Times(0, t) == 0 && Times(1, t) == t && Times(2, t) == t + t && Times(3, t) == t + t + t;
  }

  /** Conservation: a query lying inside a 2-D or 3-D box is cut out exactly;
      at most 3^dims - 1 boxes remain and no element is lost or counted twice. */
  lemma SplitConserves(original: BBX, query: BBX)
    requires original.Proper() && query.Proper() && original.dims == query.dims && original.dims >= 2
    requires Inside(query, original)
    ensures SplitReduce(original, query).Ok?
    ensures var list := SplitReduce(original, query).value;
      && Remainder(original, query, list)
      && |list| <= (if original.dims == 2 then 8 else 26)
      && TotalVolume(list) + query.Volume() == original.Volume()
  {
    InsideMeets(original, query);
    BricksCarve(original, query);
    assert AsBrick(Clip(original, query)) == AsBrick(query);
    BricksToRemainder(original, query);
    VolumeOfBricks(original.dims, Bricks(original, query));
  }

  lemma InsideMeets(original: BBX, query: BBX)
    requires original.Proper() && query.Proper() && original.dims == query.dims
    requires Inside(query, original)
    ensures Meets(original, query) && NoAxisCovered(original, query)
    ensures Clip(original, query).bounds == query.bounds
  {
    forall i | 0 <= i < original.dims
      ensures OverlapBound(original.bounds[i], query.bounds[i]) == Some(query.bounds[i])
      ensures original.bounds[i] == query.bounds[i] || query.Lo(i) > original.Lo(i) || query.Hi(i) < original.Hi(i)
    {
      assert original.Lo(i) <= query.Lo(i) <= query.Hi(i) <= original.Hi(i);
    }
  }

  lemma BricksToRemainder(original: BBX, query: BBX)
    requires original.Proper() && query.Proper() && original.dims == query.dims && original.dims >= 2
    requires Meets(original, query)
    requires var ks := Bricks(original, query);
      && Carves(ks, AsBrick(original), true, AsBrick(Clip(original, query)), |ks| + 1)
      && (original.dims == 2 ==> forall k :: k in ks ==> k.c == Bound(0, 0))
    ensures Remainder(original, query, ToBoxes(original.dims, Bricks(original, query)))
  {
    var ks := Bricks(original, query);
    var list := ToBoxes(original.dims, ks);
    BoxesOfBricks(original.dims, ks);
    OverlapIsIntersection(original, query);
    forall i | 0 <= i < |list| ensures list[i].Proper() {
      assert ks[i].Proper() && AsBrick(list[i]) == ks[i];
    }
    forall p: Point ensures InSomeBox(p, list) <==> original.Has(p) && !query.Has(p) {
      assert InSomeBox(p, list) <==> InSome(p, ks) by {
        if i :| 0 <= i < |list| && list[i].Has(p) { assert ks[i].Has(p); }
        if i :| 0 <= i < |ks| && ks[i].Has(p) { assert list[i].Has(p); }
      }
      assert AsBrick(original).Has(p) <==> original.Has(p);
      assert AsBrick(Clip(original, query)).Has(p) <==> Clip(original, query).Has(p);
    }
  }

  /** When splitReduceBBX can be trusted: 1-D only if nothing should remain,
      2-D if every axis tiles, 3-D only if the query lies inside the box
      (its skip test compares with the query, not with the overlap). */
  predicate SplitIsSafe(original: BBX, query: BBX)
    requires original.Valid() && query.Valid() && original.dims == query.dims
  {
    if original.dims == 1 then Inside(original, query)
    else if original.dims == 2 then NoAxisCovered(original, query)
    else Inside(query, original)
  }

  lemma SplitExactIff(original: BBX, query: BBX)
    requires original.Proper() && query.Proper() && original.dims == query.dims
    requires Meets(original, query)
    ensures SplitReduce(original, query).Ok?
    ensures Remainder(original, query, SplitReduce(original, query).value) <==> SplitIsSafe(original, query)
  {
    if original.dims == 1 {
      OneAxisLeavesNothing(original, query);
    } else if !NoAxisCovered(original, query) {
      CoveredAxisLeavesInverted(original, query);
      assert original.dims == 3 && Inside(query, original) ==> false by {
        if Inside(query, original) { InsideMeets(original, query); }
      }
    } else if original.dims == 2 || Inside(query, original) {
      BricksCarve(original, query);
      BricksToRemainder(original, query);
    } else {
      OverhangKeepsOverlap(original, query);
    }
  }

  lemma OneAxisLeavesNothing(original: BBX, query: BBX)
    requires original.Proper() && query.Proper() && original.dims == query.dims == 1
    requires Meets(original, query)
    ensures SplitReduce(original, query) == Ok([])
    ensures Remainder(original, query, []) <==> Inside(original, query)
  {
    var list: seq<BBX> := [];
    assert forall p: Point :: !InSomeBox(p, list);
    if Remainder(original, query, []) {
      assert original.Has(original.Lower()) && original.Has(original.Upper());
      assert query.Has(original.Lower()) && query.Has(original.Upper());
    }
  }

  /** An axis strictly covered by the query yields a box with ub < lb. */
  lemma CoveredAxisLeavesInverted(original: BBX, query: BBX)
    requires original.Proper() && query.Proper() && original.dims == query.dims && original.dims >= 2
    requires Meets(original, query) && !NoAxisCovered(original, query)
    ensures SplitReduce(original, query).Ok?
    ensures !Remainder(original, query, SplitReduce(original, query).value)
  {
    var d := original.dims;
    var i := InvertedBrick(original, query);
    var ks := Bricks(original, query);
    BricksFlat(original, query);
    BoxesOfBricks(d, ks);
    assert AsBrick(ToBoxes(d, ks)[i]) == ks[i];
    assert SplitReduce(original, query).value == ToBoxes(d, ks);
  }

  /** The first brick of the grid has an axis that runs backwards. */
  lemma InvertedBrick(original: BBX, query: BBX) returns (i: nat)
    requires original.Proper() && query.Proper() && original.dims == query.dims && original.dims >= 2
    requires Meets(original, query) && !NoAxisCovered(original, query)
    ensures i < |Bricks(original, query)| && !Bricks(original, query)[i].Proper()
  {
    var d := original.dims;
    var as_ := SplitBound(original.bounds[0], query.bounds[0]);
    var bs := SplitBound(original.bounds[1], query.bounds[1]);
    var cs := if d == 2 then [Bound(0, 0)] else SplitBound(original.bounds[2], query.bounds[2]);
    var skip := Skipped(d, Clip(original, query), query);
    assert forall i :: 0 <= i < d ==> OverlapBound(original.bounds[i], query.bounds[i]).Some?;
    var k := Brick(as_[0], bs[0], cs[0]);
    assert !k.Proper() && skip.Proper();
    GridMember(as_, bs, cs, skip);
    var ks := Bricks(original, query);
    assert k in ks;
    i :| i < |ks| && ks[i] == k;
  }

  /** 2-D bricks are flat on the third axis. */
  lemma BricksFlat(original: BBX, query: BBX)
    requires original.Valid() && query.Valid() && original.dims == query.dims && original.dims >= 2
    requires Meets(original, query)
    ensures original.dims == 2 ==>
      forall i :: 0 <= i < |Bricks(original, query)| ==> Bricks(original, query)[i].c == Bound(0, 0)
  {
    if original.dims == 2 {
      var cs := [Bound(0, 0)];
      GridMember(SplitBound(original.bounds[0], query.bounds[0]), SplitBound(original.bounds[1], query.bounds[1]), cs,
                 Skipped(2, Clip(original, query), query));
      assert forall c :: c in cs ==> c == Bound(0, 0);
      forall i | 0 <= i < |Bricks(original, query)| ensures Bricks(original, query)[i].c == Bound(0, 0) {
        assert Bricks(original, query)[i] in Bricks(original, query);
      }
    }
  }

  /** In 3-D a query reaching outside the box is not cut out at all. */
  lemma OverhangKeepsOverlap(original: BBX, query: BBX)
    requires original.Proper() && query.Proper() && original.dims == query.dims == 3
    requires Meets(original, query) && NoAxisCovered(original, query) && !Inside(query, original)
    ensures SplitReduce(original, query).Ok?
    ensures !Remainder(original, query, SplitReduce(original, query).value)
  {
    BricksCarve(original, query);
    OverlapIsIntersection(original, query);
    var ks := Bricks(original, query);
    var list := ToBoxes(3, ks);
    BoxesOfBricks(3, ks);
    var p: Point :| original.Has(p) && query.Has(p);
    assert AsBrick(original).Has(p);
    assert InSome(p, ks);
    var i :| 0 <= i < |ks| && ks[i].Has(p);
    assert list[i].Has(p);
    assert (forall j :: 0 <= j < |list| ==> list[j].Valid()) && InSomeBox(p, list);
  }
}
