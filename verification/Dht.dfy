/** initDHTManually and getMetaServerID of server/DHTManager/dhtmanager.cpp:
    the static partition of the domain among metadata servers. */
module Dht {
  import opened Arith
  import opened Outcomes
  import opened Boxes

  /** ceil(len / parts); the double division of the source is exact for ints. */
  function Span(len: int, parts: int): int
    requires parts >= 1
  {
    (len + parts - 1) / parts
  }

  function AxisPart(len: int, parts: int, k: int): Bound
    requires parts >= 1
  {
    Bound(k * Span(len, parts), Min((k + 1) * Span(len, parts) - 1, len - 1))
  }

  predicate Layout(lens: seq<int>, parts: seq<int>) {
    |lens| == |parts| <= 3 && (forall i :: 0 <= i < |lens| ==> lens[i] >= 1 && parts[i] >= 1)
  }

  /** Length and part count of an axis; an unused axis is one part of length 1. */
  function AxisOf(s: seq<int>, i: nat): int { if i < |s| then s[i] else 1 }

  function PartBox(lens: seq<int>, parts: seq<int>, pos: Point): (b: BBX)
    requires Layout(lens, parts)
    ensures b.dims == |lens| == |b.bounds|
  {
    BBX(|lens|, 0, seq(|lens|, i requires 0 <= i < |lens| => AxisPart(lens[i], parts[i], pos.Axis(i))))
  }

  function PartCount(parts: seq<int>): int { AxisOf(parts, 2) * (AxisOf(parts, 1) * AxisOf(parts, 0)) }

  function PartID(parts: seq<int>, pos: Point): int {
    pos.z * (AxisOf(parts, 1) * AxisOf(parts, 0)) + pos.y * AxisOf(parts, 0) + pos.x
  }

  predicate InGrid(parts: seq<int>, pos: Point) {
    0 <= pos.x < AxisOf(parts, 0) && 0 <= pos.y < AxisOf(parts, 1) && 0 <= pos.z < AxisOf(parts, 2)
  }

  predicate Positive(parts: seq<int>) { forall i :: 0 <= i < |parts| ==> parts[i] >= 1 }

  function Position(parts: seq<int>, id: int): Point
    requires Positive(parts)
  {
    var row := id / AxisOf(parts, 0);
    Point(id % AxisOf(parts, 0), row % AxisOf(parts, 1), row / AxisOf(parts, 1))
  }

  lemma PartIDNested(parts: seq<int>, pos: Point)
    ensures PartID(parts, pos) == (pos.z * AxisOf(parts, 1) + pos.y) * AxisOf(parts, 0) + pos.x
    ensures PartCount(parts) == (AxisOf(parts, 2) * AxisOf(parts, 1)) * AxisOf(parts, 0)
  {
    var z, y, n, m := pos.z, pos.y, AxisOf(parts, 1), AxisOf(parts, 0);
    assert z * (n * m) == (z * n) * m;
    assert (z * n) * m + y * m == (z * n + y) * m;
    assert AxisOf(parts, 2) * (n * m) == (AxisOf(parts, 2) * n) * m;
  }

  /** Partition IDs and grid positions are in bijection. */
  lemma PartIDBijection(parts: seq<int>, pos: Point, id: int)
    requires Positive(parts)
    ensures InGrid(parts, pos) ==>
      0 <= PartID(parts, pos) < PartCount(parts) && Position(parts, PartID(parts, pos)) == pos
    ensures 0 <= id < PartCount(parts) ==>
      InGrid(parts, Position(parts, id)) && PartID(parts, Position(parts, id)) == id
  {
    PartIDNested(parts, pos);
    var m, n, l := AxisOf(parts, 0), AxisOf(parts, 1), AxisOf(parts, 2);
    if InGrid(parts, pos) {
      var row := pos.z * n + pos.y;
      MulBound(pos.z, pos.y, l, n);
      MulBound(row, pos.x, l * n, m);
      var k := PartID(parts, pos);
      DivBelow(k, l * n, m);
      DivUnique(k / m, k % m, row, pos.x, m);
      DivBelow(row, l, n);
      DivUnique(row / n, row % n, pos.z, pos.y, n);
    }
    if 0 <= id < PartCount(parts) {
      DivBelow(id, l * n, m);
      DivBelow(id / m, l, n);
      PartIDNested(parts, Position(parts, id));
    }
  }

  /** The partition boxes in ID order. */
  function Partitions(lens: seq<int>, parts: seq<int>): (r: seq<BBX>)
    requires Layout(lens, parts)
    ensures |r| == PartCount(parts)
  {
    CountPositive(parts);
    seq(PartCount(parts), id requires 0 <= id < PartCount(parts) => PartBox(lens, parts, Position(parts, id)))
  }

  lemma CountPositive(parts: seq<int>)
    requires Positive(parts)
    ensures PartCount(parts) >= 1
  {
    MulMono(1, AxisOf(parts, 1), AxisOf(parts, 0));
    MulMono(1, AxisOf(parts, 2), AxisOf(parts, 1) * AxisOf(parts, 0));
  }

  function AsMap(s: seq<BBX>): map<int, BBX> { map i | 0 <= i < |s| :: s[i] }

  datatype ResponsibleMetaServer = ResponsibleMetaServer(metaServerID: int, bbx: BBX)

  class DHTManager {
    var metaServerIDToBBX: map<int, BBX>
    var metaServerIDToAddr: map<int, string>
    ghost var boxes: seq<BBX>   // the partition boxes in ID order

    ghost predicate Valid()
      reads this
    {
      && metaServerIDToBBX == AsMap(boxes)
      && forall i {:trigger boxes[i]} :: 0 <= i < |boxes| ==> |boxes[i].bounds| == boxes[i].dims
    }

    constructor ()
      ensures Valid() && boxes == [] && metaServerIDToAddr == map[]
    {
      metaServerIDToBBX := map[];
      metaServerIDToAddr := map[];
      boxes := [];
    }

    method InitDHTManually(lenArray: seq<int>, partitionLayout: seq<int>) returns (r: Result<()>)
      requires Valid() && boxes == []
      requires |lenArray| == |partitionLayout| ==> Layout(lenArray, partitionLayout)
      modifies this`metaServerIDToBBX, this`boxes
      ensures |lenArray| != |partitionLayout| ==> r == Err(DimMismatch) && boxes == []
      ensures |lenArray| == |partitionLayout| ==> r == Ok(()) && boxes == Partitions(lenArray, partitionLayout)
      ensures Valid()
    {
      if |lenArray| != |partitionLayout| { return Err(DimMismatch); }
      var px, py, pz := AxisOf(partitionLayout, 0), AxisOf(partitionLayout, 1), AxisOf(partitionLayout, 2);
      ghost var all := Partitions(lenArray, partitionLayout);
      ghost var n := 0;
      for z := 0 to pz
        invariant n == PartID(partitionLayout, Point(0, 0, z)) && 0 <= n <= |all|
        invariant metaServerIDToBBX == AsMap(all[..n])
      {
        for y := 0 to py
          invariant n == PartID(partitionLayout, Point(0, y, z)) && 0 <= n <= |all|
          invariant metaServerIDToBBX == AsMap(all[..n])
        {
          for x := 0 to px
            invariant n == PartID(partitionLayout, Point(x, y, z)) && 0 <= n <= |all|
            invariant metaServerIDToBBX == AsMap(all[..n])
          {
            var partitionID := z * (py * px) + y * px + x;
            var bbx := MakePart(lenArray, partitionLayout, x, y, z);
            PartIDBijection(partitionLayout, Point(x, y, z), 0);
            AsMapSnoc(all, n);
            metaServerIDToBBX := metaServerIDToBBX[partitionID := bbx];
            n := n + 1;
          }
          PartIDCarry(partitionLayout, y, z);
        }
        PartIDCarry(partitionLayout, 0, z);
      }
      PartIDCarry(partitionLayout, 0, 0);
      assert all[..|all|] == all;
      boxes := all;
      r := Ok(());
    }

    /** getMetaServerID walks the map in key order. */
    method GetMetaServerID(query: BBX) returns (r: Result<seq<ResponsibleMetaServer>>)
      requires Valid() && |query.bounds| == query.dims
      ensures r == Responsible(boxes, |boxes|, query)
    {
      var rmList: seq<ResponsibleMetaServer> := [];
      var id := 0;
      while id in metaServerIDToBBX
        invariant 0 <= id <= |boxes|
        invariant Responsible(boxes, id, query) == Ok(rmList)
        decreases |boxes| - id
      {
        var o := GetOverlapBBX(query, metaServerIDToBBX[id]);
        if o.Err? {
          ResponsibleErr(boxes, id + 1, |boxes|, query);
          return Err(o.error);
        }
        if o.value.Some? {
          rmList := rmList + [ResponsibleMetaServer(id, o.value.value)];
        }
        id := id + 1;
      }
      assert id == |boxes| by { assert |boxes| > id ==> id in AsMap(boxes); }
      r := Ok(rmList);
    }
  }

  lemma AsMapSnoc(s: seq<BBX>, n: nat)
    requires n < |s|
    ensures AsMap(s[..n])[n as int := s[n]] == AsMap(s[..n + 1])
  {
  }

  lemma PartIDCarry(parts: seq<int>, y: int, z: int)
    ensures PartID(parts, Point(AxisOf(parts, 0), y, z)) == PartID(parts, Point(0, y + 1, z))
    ensures PartID(parts, Point(0, AxisOf(parts, 1), z)) == PartID(parts, Point(0, 0, z + 1))
    ensures PartID(parts, Point(0, 0, AxisOf(parts, 2))) == PartCount(parts)
    ensures PartID(parts, Point(0, 0, 0)) == 0
  {
    MulSub(y, y + 1, AxisOf(parts, 0));
    MulSub(z, z + 1, AxisOf(parts, 1) * AxisOf(parts, 0));
  }

  /** The body of the innermost loop: one bound per axis, nested by dims. */
  method MakePart(lens: seq<int>, parts: seq<int>, x: int, y: int, z: int) returns (bbx: BBX)
    requires Layout(lens, parts)
    ensures bbx == PartBox(lens, parts, Point(x, y, z))
  {
    var dims := |parts|;
    bbx := BBX(dims, 0, []);
    if dims >= 1 {
      var xSpan := Span(lens[0], parts[0]);
      bbx := bbx.(bounds := bbx.bounds + [Bound(x * xSpan, Min((x + 1) * xSpan - 1, lens[0] - 1))]);
      if dims >= 2 {
        var ySpan := Span(lens[1], parts[1]);
        bbx := bbx.(bounds := bbx.bounds + [Bound(y * ySpan, Min((y + 1) * ySpan - 1, lens[1] - 1))]);
        if dims >= 3 {
          var zSpan := Span(lens[2], parts[2]);
          bbx := bbx.(bounds := bbx.bounds + [Bound(z * zSpan, Min((z + 1) * zSpan - 1, lens[2] - 1))]);
        }
      }
    }
  }

  function Responsible(boxes: seq<BBX>, n: nat, query: BBX): Result<seq<ResponsibleMetaServer>>
    requires n <= |boxes| && |query.bounds| == query.dims
    requires forall i {:trigger boxes[i]} :: 0 <= i < |boxes| ==> |boxes[i].bounds| == boxes[i].dims
  {
    if n == 0 then Ok([])
    else
      var before :- Responsible(boxes, n - 1, query);
      var overlap :- OverlapBBX(query, boxes[n - 1]);
      if overlap.None? then Ok(before) else Ok(before + [ResponsibleMetaServer(n - 1, overlap.value)])
  }

  lemma {:induction false} ResponsibleErr(boxes: seq<BBX>, m: nat, n: nat, query: BBX)
    requires m <= n <= |boxes| && |query.bounds| == query.dims
    requires forall i {:trigger boxes[i]} :: 0 <= i < |boxes| ==> |boxes[i].bounds| == boxes[i].dims
    requires Responsible(boxes, m, query).Err?
    ensures Responsible(boxes, n, query) == Responsible(boxes, m, query)
  {
    if m < n { ResponsibleErr(boxes, m, n - 1, query); }
  }

  // ------------------------------------------------------------------
  // Tiling
  // ------------------------------------------------------------------

  lemma SpanCovers(len: int, parts: int)
    requires len >= 1 && parts >= 1
    ensures Span(len, parts) >= 1
    ensures (parts - 1) * Span(len, parts) < parts * Span(len, parts)
    ensures len <= parts * Span(len, parts)
  {
    var s := Span(len, parts);
    var t := len + parts - 1;
    assert t == s * parts + t % parts;
    if s <= 0 { MulMono(s, 0, parts); }
    assert s * parts == parts * s;
    MulSub(parts - 1, parts, s);
  }

  /** A coordinate of the domain lies in the part `v / span` and in no other;
      trailing parts past the end are inverted and hold nothing. */
  lemma AxisTiling(len: int, parts: int, k: int, v: int)
    requires len >= 1 && parts >= 1 && 0 <= v < len
    ensures 0 <= v / Span(len, parts) < parts
    ensures InBound(v, AxisPart(len, parts, k)) <==> k == v / Span(len, parts)
  {
    var s := Span(len, parts);
    SpanCovers(len, parts);
    DivBelow(v, parts, s);
    var q := v / s;
    MulSub(k, k + 1, s);
    MulSub(q, q + 1, s);
    if k < q { MulMono(k + 1, q, s); }
    if k > q { MulMono(q + 1, k, s); }
  }

  /** The global domain as a box. */
  function Domain(lens: seq<int>): (b: BBX)
    requires 1 <= |lens| <= 3
    ensures b.Valid() && b.dims == |lens|
  {
    BBX(|lens|, 0, seq(|lens|, i requires 0 <= i < |lens| => Bound(0, lens[i] - 1)))
  }

  function OwnerPosition(lens: seq<int>, parts: seq<int>, p: Point): Point
    requires Layout(lens, parts)
  {
    var s0, s1, s2 := Span(AxisOf(lens, 0), AxisOf(parts, 0)), Span(AxisOf(lens, 1), AxisOf(parts, 1)),
      Span(AxisOf(lens, 2), AxisOf(parts, 2));
    Point(if s0 == 0 then 0 else p.x / s0, if s1 == 0 then 0 else p.y / s1, if s2 == 0 then 0 else p.z / s2)
  }

  lemma PartBoxAxis(lens: seq<int>, parts: seq<int>, pos: Point, i: nat)
    requires Layout(lens, parts) && |lens| >= 1 && i < 3
    requires i >= |lens| ==> pos.Axis(i) == 0
    ensures var b := PartBox(lens, parts, pos);
      Bound(b.Lo(i), b.Hi(i)) == AxisPart(AxisOf(lens, i), AxisOf(parts, i), pos.Axis(i))
  {
  }

  /** Every cell of the domain lies in exactly one partition box. */
  lemma PartitionsTile(lens: seq<int>, parts: seq<int>, p: Point)
    requires Layout(lens, parts) && |lens| >= 1 && Domain(lens).Has(p)
    ensures var all := Partitions(lens, parts);
      var owner := PartID(parts, OwnerPosition(lens, parts, p));
      && 0 <= owner < |all|
      && forall id :: 0 <= id < |all| ==> (all[id].Has(p) <==> id == owner)
  {
    var all := Partitions(lens, parts);
    var pos := OwnerPosition(lens, parts, p);
    var d := Domain(lens);
    assert 0 <= p.x < AxisOf(lens, 0) && 0 <= p.y < AxisOf(lens, 1) && 0 <= p.z < AxisOf(lens, 2);
    AxisTiling(AxisOf(lens, 0), AxisOf(parts, 0), 0, p.x);
    AxisTiling(AxisOf(lens, 1), AxisOf(parts, 1), 0, p.y);
    AxisTiling(AxisOf(lens, 2), AxisOf(parts, 2), 0, p.z);
    SpanCovers(AxisOf(lens, 0), AxisOf(parts, 0));
    SpanCovers(AxisOf(lens, 1), AxisOf(parts, 1));
    SpanCovers(AxisOf(lens, 2), AxisOf(parts, 2));
    PartIDBijection(parts, pos, 0);
    var owner := PartID(parts, pos);
    forall id | 0 <= id < |all| ensures all[id].Has(p) <==> id == owner {
      var q := Position(parts, id);
      PartIDBijection(parts, q, id);
      PartHasIff(lens, parts, q, p);
      PartIDBijection(parts, pos, owner);
    }
  }

  lemma PartHasIff(lens: seq<int>, parts: seq<int>, q: Point, p: Point)
    requires Layout(lens, parts) && |lens| >= 1 && Domain(lens).Has(p) && InGrid(parts, q)
    ensures PartBox(lens, parts, q).Has(p) <==> q == OwnerPosition(lens, parts, p)
  {
    assert 0 <= p.x < AxisOf(lens, 0) && 0 <= p.y < AxisOf(lens, 1) && 0 <= p.z < AxisOf(lens, 2) by {
      var d := Domain(lens);
      assert d.Lo(0) == 0 && d.Hi(0) == AxisOf(lens, 0) - 1;
    }
    SpanCovers(AxisOf(lens, 0), AxisOf(parts, 0));
    SpanCovers(AxisOf(lens, 1), AxisOf(parts, 1));
    SpanCovers(AxisOf(lens, 2), AxisOf(parts, 2));
    AxisTiling(AxisOf(lens, 0), AxisOf(parts, 0), q.x, p.x);
    AxisTiling(AxisOf(lens, 1), AxisOf(parts, 1), q.y, p.y);
    AxisTiling(AxisOf(lens, 2), AxisOf(parts, 2), q.z, p.z);
    PartBoxAxis(lens, parts, q, 0);
    PartBoxAxis(lens, parts, q, 1);
    PartBoxAxis(lens, parts, q, 2);
  }

  /** For an in-domain query a partition box meets the query, in the sense of
      getOverlapBBX, exactly when they share a cell: an inverted trailing box
      is never reported, and every reported overlap is a proper box. */
  lemma PartMeetsIff(lens: seq<int>, parts: seq<int>, query: BBX, id: int)
    requires Layout(lens, parts) && |lens| >= 1
    requires query.Proper() && query.dims == |lens| && Inside(query, Domain(lens))
    requires 0 <= id < PartCount(parts)
    ensures var b := Partitions(lens, parts)[id];
      && (Meets(query, b) <==> exists p: Point :: query.Has(p) && b.Has(p))
      && (Meets(query, b) ==> b.Proper() && Clip(query, b).Proper())
      && (Meets(query, b) ==> forall p: Point :: Clip(query, b).Has(p) <==> query.Has(p) && b.Has(p))
  {
    var pos := Position(parts, id);
    var b := PartBox(lens, parts, pos);
    PartIDBijection(parts, pos, id);
    if Meets(query, b) || exists p: Point :: query.Has(p) && b.Has(p) {
      forall i: nat | i < 3 ensures b.Lo(i) <= b.Hi(i) {
        if i < |lens| {
          assert Meets(query, b) ==> OverlapBound(query.bounds[i], b.bounds[i]).Some?;
          PartNotInverted(lens[i], parts[i], pos.Axis(i), query.bounds[i]);
        }
      }
      assert b.Proper();
      OverlapIsIntersection(query, b);
    }
  }

  lemma PartNotInverted(len: int, parts: int, k: int, q: Bound)
    requires len >= 1 && parts >= 1 && 0 <= k
    requires 0 <= q.lb <= q.ub < len
    ensures var b := AxisPart(len, parts, k);
      OverlapBound(q, b).Some? ==> b.lb <= b.ub
    ensures var b := AxisPart(len, parts, k);
      (exists v :: InBound(v, q) && InBound(v, b)) ==> b.lb <= b.ub
  {
    SpanCovers(len, parts);
    MulSub(k, k + 1, Span(len, parts));
  }

  lemma {:induction false} ResponsibleMembers(boxes: seq<BBX>, n: nat, query: BBX)
    requires n <= |boxes| && query.Valid()
    requires forall i {:trigger boxes[i]} :: 0 <= i < |boxes| ==>
      |boxes[i].bounds| == boxes[i].dims && boxes[i].Valid() && boxes[i].dims == query.dims
    ensures Responsible(boxes, n, query).Ok?
    ensures var list := Responsible(boxes, n, query).value;
      && (forall e :: e in list ==> 0 <= e.metaServerID < n && Meets(query, boxes[e.metaServerID])
                                    && e.bbx == Clip(query, boxes[e.metaServerID]))
      && (forall id :: 0 <= id < n && Meets(query, boxes[id]) ==>
           ResponsibleMetaServer(id, Clip(query, boxes[id])) in list)
      && (forall i, j :: 0 <= i < j < |list| ==> list[i].metaServerID < list[j].metaServerID)
  {
    if n > 0 { ResponsibleMembers(boxes, n - 1, query); }
  }

  /** getMetaServerID for an in-domain query: exactly the servers whose box
      shares a cell with it, each once and in ID order, with clipped parts that
      are proper boxes and tile the query. */
  lemma MetaServersTileQuery(lens: seq<int>, parts: seq<int>, query: BBX)
    requires Layout(lens, parts) && |lens| >= 1
    requires query.Proper() && query.dims == |lens| && Inside(query, Domain(lens))
    ensures var all := Partitions(lens, parts);
      var r := Responsible(all, |all|, query);
      && r.Ok?
      && (forall i, j :: 0 <= i < j < |r.value| ==> r.value[i].metaServerID < r.value[j].metaServerID)
      && (forall id :: 0 <= id < |all| ==>
           ((exists e :: e in r.value && e.metaServerID == id) <==>
              (exists p: Point :: query.Has(p) && all[id].Has(p))))
      && (forall e :: e in r.value ==> e.bbx.Proper() && forall p: Point :: e.bbx.Has(p) ==> query.Has(p))
      && (forall p: Point :: query.Has(p) ==> exists e :: e in r.value && e.bbx.Has(p))
      && (forall p: Point, e, f :: e in r.value && f in r.value && e.bbx.Has(p) && f.bbx.Has(p) ==> e == f)
  {
    var all := Partitions(lens, parts);
    ResponsibleMembers(all, |all|, query);
    var list := Responsible(all, |all|, query).value;
    forall id | 0 <= id < |all|
      ensures (exists e :: e in list && e.metaServerID == id) <==> (exists p: Point :: query.Has(p) && all[id].Has(p))
    {
      PartMeetsIff(lens, parts, query, id);
      if Meets(query, all[id]) { assert ResponsibleMetaServer(id, Clip(query, all[id])) in list; }
    }
    forall e | e in list ensures e.bbx.Proper() && forall p: Point :: e.bbx.Has(p) ==> query.Has(p) {
      PartMeetsIff(lens, parts, query, e.metaServerID);
    }
    forall p: Point | query.Has(p) ensures exists e :: e in list && e.bbx.Has(p) {
      var id := OwnerMeets(lens, parts, query, p);
      assert ResponsibleMetaServer(id, Clip(query, all[id])) in list;
    }
    forall p: Point, e, f | e in list && f in list && e.bbx.Has(p) && f.bbx.Has(p) ensures e == f {
      SharesDiffer(lens, parts, query, p, e.metaServerID, f.metaServerID);
    }
  }

  /** A cell lies in the shares of no two partitions. */
  lemma SharesDiffer(lens: seq<int>, parts: seq<int>, query: BBX, p: Point, i: int, j: int)
    requires Layout(lens, parts) && |lens| >= 1 && query.Proper() && query.dims == |lens|
    requires Inside(query, Domain(lens))
    requires 0 <= i < PartCount(parts) && 0 <= j < PartCount(parts)
    requires var all := Partitions(lens, parts);
      Meets(query, all[i]) && Meets(query, all[j]) && Clip(query, all[i]).Has(p) && Clip(query, all[j]).Has(p)
    ensures i == j
  {
    PartMeetsIff(lens, parts, query, i);
    PartMeetsIff(lens, parts, query, j);
    InsideDomain(lens, query, p);
    PartitionsTile(lens, parts, p);
  }

  /** The partition that owns a cell of the query has it in its share. */
  lemma OwnerMeets(lens: seq<int>, parts: seq<int>, query: BBX, p: Point) returns (id: int)
    requires Layout(lens, parts) && |lens| >= 1 && query.Proper() && query.dims == |lens|
    requires Inside(query, Domain(lens)) && query.Has(p)
    ensures var all := Partitions(lens, parts);
      && 0 <= id < |all| && all[id].Valid() && all[id].dims == query.dims
      && Meets(query, all[id]) && Clip(query, all[id]).Has(p)
  {
    InsideDomain(lens, query, p);
    PartitionsTile(lens, parts, p);
    id := PartID(parts, OwnerPosition(lens, parts, p));
    PartMeetsIff(lens, parts, query, id);
  }

  lemma InsideDomain(lens: seq<int>, query: BBX, p: Point)
    requires 1 <= |lens| <= 3 && query.Valid() && query.dims == |lens|
    requires Inside(query, Domain(lens)) && query.Has(p)
    ensures Domain(lens).Has(p)
  {
    var d := Domain(lens);
    assert d.Lo(0) <= query.Lo(0) && d.Lo(1) <= query.Lo(1) && d.Lo(2) <= query.Lo(2);
  }
}
