/** The descriptor kept by a metadata server, and ifCovered of
    server/MetadataManager/metadataManager.cpp. */
module Descriptors {
  import opened Boxes

  datatype Backend = Mem | File | MemVtkPtr | MemVtkExplicit

  datatype BlockDescriptor = BlockDescriptor(
    rawDataServerAddr: string, rawDataID: string, dataType: string,
    backend: Backend, dims: nat, indexlb: Point, indexub: Point)
  {
    /** The three-entry index arrays bound the dimension. */
    predicate Sized() { dims <= 3 }

    function Box(): (b: BBX)
      requires Sized()
      ensures b.dims == dims == |b.bounds| && b.status == 0
    {
      MakeBBX(dims, indexlb, indexub)
    }

    /** A block as a writer declares it: 1 to 3 axes, lb <= ub. */
    predicate Proper() { Sized() && Box().Proper() }
  }

  ghost predicate AllSized(blocks: seq<BlockDescriptor>) {
    forall k {:trigger blocks[k]} :: 0 <= k < |blocks| ==> blocks[k].Sized()
  }

  ghost predicate AllProper(blocks: seq<BlockDescriptor>, dims: nat) {
    forall k {:trigger blocks[k]} :: 0 <= k < |blocks| ==>
      blocks[k].Sized() && blocks[k].Proper() && blocks[k].dims == dims
  }
}

module Coverage {
  import opened Outcomes
  import opened Boxes
  import opened Split
  import opened Descriptors

  /** What one visit of the inner loop puts back for the box at the front. */
  function Cut(box: BBX, blk: BBX): Result<seq<BBX>>
    requires |box.bounds| == box.dims && |blk.bounds| == blk.dims
  {
    var overlap :- OverlapBBX(box, blk);
    if overlap.None? then Ok([box.(status := box.status + 1)])
    else if SameBox(overlap.value, box) then Ok([])
    else
      var pieces :- SplitReduce(box, overlap.value);
      Ok(WithStatus(pieces, box.status + 1))
  }

  function WithStatus(boxes: seq<BBX>, status: nat): (r: seq<BBX>)
    ensures |r| == |boxes|
  {
    seq(|boxes|, i requires 0 <= i < |boxes| => boxes[i].(status := status))
  }

  ghost predicate Shaped(boxes: seq<BBX>) {
    forall i :: 0 <= i < |boxes| ==> |boxes[i].bounds| == boxes[i].dims
  }

  /** One layer: every box of the queue is cut by the same block. */
  function CutAll(boxes: seq<BBX>, blk: BBX): Result<seq<BBX>>
    requires Shaped(boxes) && |blk.bounds| == blk.dims
  {
    if boxes == [] then Ok([])
    else
      var front :- Cut(boxes[0], blk);
      var rest :- CutAll(boxes[1..], blk);
      Ok(front + rest)
  }

  lemma {:induction false} CutAllShaped(boxes: seq<BBX>, blk: BBX, status: nat)
    requires Shaped(boxes) && |blk.bounds| == blk.dims
    requires forall i :: 0 <= i < |boxes| ==> boxes[i].status == status
    ensures CutAll(boxes, blk).Ok? ==> Shaped(CutAll(boxes, blk).value)
    ensures CutAll(boxes, blk).Ok? ==>
      forall i :: 0 <= i < |CutAll(boxes, blk).value| ==> CutAll(boxes, blk).value[i].status == status + 1
  {
    if boxes != [] {
      CutAllShaped(boxes[1..], blk, status);
    }
  }

  /** The queue left when every block of the list has been used. */
  function Leftover(boxes: seq<BBX>, status: nat, blocks: seq<BlockDescriptor>): Result<seq<BBX>>
    requires Shaped(boxes) && forall i :: 0 <= i < |boxes| ==> boxes[i].status == status
    requires AllSized(blocks)
    decreases |blocks|
  {
    if blocks == [] then Ok(boxes)
    else
      CutAllShaped(boxes, blocks[0].Box(), status);
      var next :- CutAll(boxes, blocks[0].Box());
      Leftover(next, status + 1, blocks[1..])
  }

  function CoverAnswer(blocks: seq<BlockDescriptor>, query: BBX): Result<bool>
    requires |query.bounds| == query.dims && query.status == 0
    requires AllSized(blocks)
  {
    var left :- Leftover([query], 0, blocks);
    Ok(left == [])
  }

  /** The queue loop. Boxes still to be cut by the current block carry the
      current status, those already cut carry the next one. */
  method IfCovered(existlist: seq<BlockDescriptor>, queryBBX: BBX) returns (r: Result<bool>)
    requires |queryBBX.bounds| == queryBBX.dims && queryBBX.status == 0
    requires AllSized(existlist)
    ensures r == CoverAnswer(existlist, queryBBX)
  {
    var queue := [queryBBX];
    var curStatus := 0;
    for k := 0 to |existlist|
      invariant curStatus == k
      invariant Shaped(queue) && forall i :: 0 <= i < |queue| ==> queue[i].status == curStatus
      invariant Leftover([queryBBX], 0, existlist) == Leftover(queue, curStatus, existlist[k..])
    {
      var existBBX := existlist[k].Box();
      var next := CutLayer(queue, curStatus, existBBX);
      assert existlist[k..][0] == existlist[k] && existlist[k..][1..] == existlist[k + 1..];
      if next.Err? { return Err(next.error); }
      CutAllShaped(queue, existBBX, curStatus);
      queue := next.value;
      curStatus := curStatus + 1;
    }
    assert existlist[|existlist|..] == [];
    r := Ok(|queue| == 0);
  }

  /** The inner loop: it stops at the first box that carries another status. */
  method CutLayer(layer: seq<BBX>, curStatus: nat, existBBX: BBX) returns (r: Result<seq<BBX>>)
    requires Shaped(layer) && |existBBX.bounds| == existBBX.dims
    requires forall i :: 0 <= i < |layer| ==> layer[i].status == curStatus
    ensures r == CutAll(layer, existBBX)
  {
    var queue := layer;
    ghost var todo, done: seq<BBX> := layer, [];
    assert CutAll(layer, existBBX).Ok? ==> [] + CutAll(layer, existBBX).value == CutAll(layer, existBBX).value;
    while |queue| > 0
      invariant queue == todo + done && Shaped(todo) && Shaped(done)
      invariant forall i :: 0 <= i < |todo| ==> todo[i].status == curStatus
      invariant forall i :: 0 <= i < |done| ==> done[i].status == curStatus + 1
      invariant CutAll(layer, existBBX) == Prepend(done, CutAll(todo, existBBX))
      decreases |todo|
    {
      if queue[0].status != curStatus {
        break;
      }
      var step := Visit(queue, existBBX);
      LayerStep(todo, done, curStatus, existBBX);
      if step.Err? { return Err(step.error); }
      queue := step.value;
      todo, done := todo[1..], done + Cut(todo[0], existBBX).value;
    }
    assert CutAll(todo, existBBX) == Ok([]) && done + [] == done;
    r := Ok(queue);
  }

  lemma LayerStep(todo: seq<BBX>, done: seq<BBX>, status: nat, blk: BBX)
    requires Shaped(todo) && Shaped(done) && |blk.bounds| == blk.dims
    requires forall i :: 0 <= i < |todo| ==> todo[i].status == status
    requires forall i :: 0 <= i < |done| ==> done[i].status == status + 1
    requires |todo + done| > 0 && (todo + done)[0].status == status
    ensures todo != [] && (todo + done)[0] == todo[0]
    ensures Cut(todo[0], blk).Err? ==> CutAll(todo, blk) == Err(Cut(todo[0], blk).error)
    ensures Cut(todo[0], blk).Ok? ==>
      var pushed := Cut(todo[0], blk).value;
      && Shaped(todo[1..]) && Shaped(done + pushed)
      && (forall i :: 0 <= i < |done + pushed| ==> (done + pushed)[i].status == status + 1)
      && (todo + done)[1..] + pushed == todo[1..] + (done + pushed)
      && Prepend(done, CutAll(todo, blk)) == Prepend(done + pushed, CutAll(todo[1..], blk))
  {
    if Cut(todo[0], blk).Ok? {
      var pushed := Cut(todo[0], blk).value;
      PushedShaped(todo[0], blk);
      QueueShift(todo, done, pushed, status);
      assert CutAll(todo, blk) == Prepend(pushed, CutAll(todo[1..], blk));
      PrependAssoc(done, pushed, CutAll(todo[1..], blk));
    }
  }

  lemma QueueShift(todo: seq<BBX>, done: seq<BBX>, pushed: seq<BBX>, status: nat)
    requires Shaped(todo) && Shaped(done) && Shaped(pushed) && |todo| > 0
    requires forall i :: 0 <= i < |done| ==> done[i].status == status + 1
    requires forall i :: 0 <= i < |pushed| ==> pushed[i].status == status + 1
    ensures Shaped(todo[1..]) && Shaped(done + pushed)
    ensures forall i :: 0 <= i < |done + pushed| ==> (done + pushed)[i].status == status + 1
    ensures (todo + done)[1..] + pushed == todo[1..] + (done + pushed)
  {
    assert (todo + done)[1..] == todo[1..] + done;
  }

  lemma PushedShaped(box: BBX, blk: BBX)
    requires |box.bounds| == box.dims && |blk.bounds| == blk.dims && Cut(box, blk).Ok?
    ensures Shaped(Cut(box, blk).value)
    ensures forall i :: 0 <= i < |Cut(box, blk).value| ==> Cut(box, blk).value[i].status == box.status + 1
  {
  }

  /** The body of the inner loop: overlap, then keep, drop or split the front box. */
  method Visit(queue: seq<BBX>, existBBX: BBX) returns (r: Result<seq<BBX>>)
    requires |queue| > 0 && |queue[0].bounds| == queue[0].dims && |existBBX.bounds| == existBBX.dims
    ensures r == Prepend(queue[1..], Cut(queue[0], existBBX))
  {
    var curBBX := queue[0];
    var overlap := GetOverlapBBX(curBBX, existBBX);
    if overlap.Err? { return Err(overlap.error); }
    var q := queue;
    if overlap.value.None? {
      curBBX := curBBX.(status := curBBX.status + 1);
      q := q + [curBBX];
      q := q[1..];
      assert q == queue[1..] + [curBBX];
    } else if SameBox(overlap.value.value, curBBX) {
      q := q[1..];
      assert queue[1..] + [] == queue[1..];
    } else {
      var bbxlist := SplitReduceBBX(curBBX, overlap.value.value);
      if bbxlist.Err? { return Err(bbxlist.error); }
      for i := 0 to |bbxlist.value|
        invariant q == queue + WithStatus(bbxlist.value, curBBX.status + 1)[..i]
      {
        var v := bbxlist.value[i].(status := curBBX.status + 1);
        q := q + [v];
      }
      q := q[1..];
      assert q == queue[1..] + WithStatus(bbxlist.value, curBBX.status + 1);
    }
    r := Ok(q);
  }

  function Prepend(done: seq<BBX>, r: Result<seq<BBX>>): Result<seq<BBX>> {
    match r case Ok(v) => Ok(done + v) case Err(e) => Err(e)
  }

  lemma PrependAssoc(a: seq<BBX>, b: seq<BBX>, r: Result<seq<BBX>>)
    ensures Prepend(a, Prepend(b, r)) == Prepend(a + b, r)
  {
    if r.Ok? { assert a + (b + r.value) == a + b + r.value; }
  }

  // ------------------------------------------------------------------
  // What the queue covers
  // ------------------------------------------------------------------

  ghost predicate InBlocks(p: Point, blocks: seq<BlockDescriptor>, dims: nat)
    requires AllProper(blocks, dims)
  {
    exists k :: 0 <= k < |blocks| && blocks[k].Box().Has(p)
  }

  /** Every cell of the query lies in some listed block. */
  ghost predicate Covered(query: BBX, blocks: seq<BlockDescriptor>)
    requires query.Valid()
    requires AllProper(blocks, query.dims)
  {
    forall p: Point :: query.Has(p) ==> InBlocks(p, blocks, query.dims)
  }

  /** The queue invariant: non-empty, pairwise disjoint boxes of one dimension. */
  ghost predicate Clean(boxes: seq<BBX>, dims: nat) {
    && (forall i :: 0 <= i < |boxes| ==> boxes[i].Proper() && boxes[i].dims == dims)
    && Disjoint(boxes)
  }

  lemma SameCells(a: BBX, b: BBX)
    requires a.Valid() && b.Valid() && SameBox(a, b)
    ensures a.Volume() == b.Volume()
    ensures forall p: Point :: a.Has(p) <==> b.Has(p)
  {
  }

  /** One visit removes exactly the block's cells from the box. */
  lemma CutExact(box: BBX, blk: BBX)
    requires box.Proper() && blk.Proper() && box.dims == blk.dims >= 2
    ensures Cut(box, blk).Ok? && Clean(Cut(box, blk).value, box.dims)
    ensures forall p: Point :: InSomeBox(p, Cut(box, blk).value) <==> box.Has(p) && !blk.Has(p)
  {
    OverlapIsIntersection(box, blk);
    var r := Cut(box, blk);
    if !Meets(box, blk) {
      var kept := box.(status := box.status + 1);
      assert r.value == [kept];
      SameCells(box, kept);
      assert forall p: Point :: kept.Has(p) ==> r.value[0].Has(p);
    } else if SameBox(Clip(box, blk), box) {
      SameCells(Clip(box, blk), box);
    } else {
      CutSplit(box, blk, Clip(box, blk));
    }
  }

  lemma CutSplit(box: BBX, blk: BBX, o: BBX)
    requires box.Proper() && blk.Proper() && box.dims == blk.dims >= 2 && Meets(box, blk)
    requires o == Clip(box, blk) && !SameBox(o, box)
    ensures Cut(box, blk).Ok? && Clean(Cut(box, blk).value, box.dims)
    ensures forall p: Point :: InSomeBox(p, Cut(box, blk).value) <==> box.Has(p) && !blk.Has(p)
  {
    OverlapIsIntersection(box, blk);
    ClipInside(box, blk);
    SplitConserves(box, o);
    var pieces := SplitReduce(box, o).value;
    StatusKeepsCells(pieces, box.status + 1);
    assert Cut(box, blk).value == WithStatus(pieces, box.status + 1);
    forall p: Point ensures InSomeBox(p, WithStatus(pieces, box.status + 1)) <==> box.Has(p) && !blk.Has(p) {
      assert InSomeBox(p, pieces) <==> box.Has(p) && !o.Has(p);
    }
  }

  lemma ClipInside(box: BBX, blk: BBX)
    requires box.Proper() && blk.Proper() && box.dims == blk.dims && Meets(box, blk)
    ensures Clip(box, blk).Proper() && Inside(Clip(box, blk), box)
  {
    OverlapIsIntersection(box, blk);
  }

  lemma StatusKeepsCells(boxes: seq<BBX>, status: nat)
    requires forall i :: 0 <= i < |boxes| ==> boxes[i].Valid()
    ensures forall i :: 0 <= i < |boxes| ==>
      WithStatus(boxes, status)[i].Valid() && SameBox(WithStatus(boxes, status)[i], boxes[i])
    ensures forall p: Point :: InSomeBox(p, WithStatus(boxes, status)) <==> InSomeBox(p, boxes)
    ensures Disjoint(boxes) ==> Disjoint(WithStatus(boxes, status))
  {
    var r := WithStatus(boxes, status);
    assert forall i, p: Point :: 0 <= i < |boxes| ==> (r[i].Has(p) <==> boxes[i].Has(p));
  }

  /** One layer removes exactly the block's cells from the whole queue. */
  lemma {:induction false} CutAllExact(boxes: seq<BBX>, blk: BBX)
    requires blk.Proper() && blk.dims >= 2 && Clean(boxes, blk.dims)
    ensures CutAll(boxes, blk).Ok? && Clean(CutAll(boxes, blk).value, blk.dims)
    ensures forall p: Point :: InSomeBox(p, CutAll(boxes, blk).value) <==> InSomeBox(p, boxes) && !blk.Has(p)
  {
    if boxes != [] {
      assert forall i :: 0 <= i < |boxes[1..]| ==> boxes[1..][i] == boxes[i + 1];
      CutExact(boxes[0], blk);
      CutAllExact(boxes[1..], blk);
      var xs, ys := Cut(boxes[0], blk).value, CutAll(boxes[1..], blk).value;
      var zs := xs + ys;
      assert boxes == [boxes[0]] + boxes[1..];
      InSomeBoxConcat([boxes[0]], boxes[1..]);
      InSomeBoxConcat(xs, ys);
      assert forall p: Point :: InSomeBox(p, [boxes[0]]) <==> boxes[0].Has(p) by {
        assert forall p: Point :: boxes[0].Has(p) ==> [boxes[0]][0].Has(p);
      }
      FrontApart(boxes);
      ConcatDisjoint(xs, ys);
    }
  }

  lemma InSomeBoxConcat(xs: seq<BBX>, ys: seq<BBX>)
    requires forall i :: 0 <= i < |xs| ==> xs[i].Valid()
    requires forall i :: 0 <= i < |ys| ==> ys[i].Valid()
    ensures forall p: Point :: InSomeBox(p, xs + ys) <==> InSomeBox(p, xs) || InSomeBox(p, ys)
  {
    var zs := xs + ys;
    forall p: Point ensures InSomeBox(p, zs) <==> InSomeBox(p, xs) || InSomeBox(p, ys) {
      if i :| 0 <= i < |xs| && xs[i].Has(p) { assert zs[i].Has(p); }
      if i :| 0 <= i < |ys| && ys[i].Has(p) { assert zs[|xs| + i].Has(p); }
    }
  }

  lemma FrontApart(boxes: seq<BBX>)
    requires |boxes| > 0 && forall i :: 0 <= i < |boxes| ==> boxes[i].Valid()
    requires Disjoint(boxes)
    ensures forall p: Point :: !(boxes[0].Has(p) && InSomeBox(p, boxes[1..]))
  {
  }

  lemma ConcatDisjoint(xs: seq<BBX>, ys: seq<BBX>)
    requires forall i :: 0 <= i < |xs| ==> xs[i].Valid()
    requires forall i :: 0 <= i < |ys| ==> ys[i].Valid()
    requires Disjoint(xs) && Disjoint(ys)
    requires forall p: Point :: !(InSomeBox(p, xs) && InSomeBox(p, ys))
    ensures Disjoint(xs + ys)
  {
    var zs := xs + ys;
    forall i, j, p: Point | 0 <= i < j < |zs| && zs[i].Has(p) ensures !zs[j].Has(p) {
      if i < |xs| <= j {
        assert InSomeBox(p, xs);
        assert !InSomeBox(p, ys);
      }
    }
  }

  /** After all blocks the queue holds exactly the cells no block covers. */
  lemma {:induction false} LeftoverExact(boxes: seq<BBX>, status: nat, blocks: seq<BlockDescriptor>, dims: nat)
    requires 2 <= dims && Clean(boxes, dims) && forall i :: 0 <= i < |boxes| ==> boxes[i].status == status
    requires AllProper(blocks, dims)
    ensures Leftover(boxes, status, blocks).Ok? && Clean(Leftover(boxes, status, blocks).value, dims)
    ensures forall p: Point ::
      InSomeBox(p, Leftover(boxes, status, blocks).value) <==> InSomeBox(p, boxes) && !InBlocks(p, blocks, dims)
    decreases |blocks|
  {
    if blocks != [] {
      var blk := blocks[0].Box();
      CutAllShaped(boxes, blk, status);
      CutAllExact(boxes, blk);
      var next := CutAll(boxes, blk).value;
      LeftoverExact(next, status + 1, blocks[1..], dims);
      forall p: Point ensures InBlocks(p, blocks, dims) <==> blk.Has(p) || InBlocks(p, blocks[1..], dims) {
        if k :| 0 < k < |blocks| && blocks[k].Box().Has(p) { assert blocks[1..][k - 1].Box().Has(p); }
        if k :| 0 <= k < |blocks[1..]| && blocks[1..][k].Box().Has(p) { assert blocks[k + 1].Box().Has(p); }
      }
    }
  }

  /** In 2-D and 3-D the answer is exactly coverage of the query. */
  lemma CoverageDecision(query: BBX, blocks: seq<BlockDescriptor>)
    requires query.Proper() && query.dims >= 2 && query.status == 0
    requires AllProper(blocks, query.dims)
    ensures CoverAnswer(blocks, query) == Ok(Covered(query, blocks))
  {
    assert Clean([query], query.dims);
    LeftoverExact([query], 0, blocks, query.dims);
    var left := Leftover([query], 0, blocks).value;
    assert forall p: Point :: InSomeBox(p, [query]) <==> query.Has(p) by {
      assert forall p: Point :: query.Has(p) ==> [query][0].Has(p);
    }
    if left != [] {
      var p := left[0].Lower();
      assert left[0].Has(p) && InSomeBox(p, left);
    }
  }

  lemma OneAxisCut(query: BBX, blk: BBX)
    requires query.Proper() && blk.Proper() && query.dims == blk.dims == 1
    ensures CutAll([query], blk) == Ok(if Meets(query, blk) then [] else [query.(status := query.status + 1)])
  {
    OverlapIsIntersection(query, blk);
    assert [query][1..] == [] && CutAll([], blk) == Ok([]);
    var cut := if Meets(query, blk) then [] else [query.(status := query.status + 1)];
    assert Cut(query, blk) == Ok(cut);
    assert cut + [] == cut;
  }

  /** A query that misses the first block meets some block exactly when it
      meets one of the others, whatever its status. */
  lemma MeetsLater(query: BBX, kept: BBX, blocks: seq<BlockDescriptor>)
    requires query.Proper() && kept == query.(status := kept.status) && blocks != [] && AllProper(blocks, query.dims)
    requires !Meets(query, blocks[0].Box())
    ensures (exists k :: 0 <= k < |blocks| && Meets(query, blocks[k].Box()))
       <==> (exists k :: 0 <= k < |blocks[1..]| && Meets(kept, blocks[1..][k].Box()))
  {
    var rest := blocks[1..];
    assert forall k :: 0 <= k < |rest| ==> (Meets(kept, rest[k].Box()) <==> Meets(query, blocks[k + 1].Box()));
    if k :| 0 <= k < |blocks| && Meets(query, blocks[k].Box()) {
      assert Meets(kept, rest[k - 1].Box());
    }
  }

  /** In 1-D splitReduceBBX returns nothing, so one block that meets the query
      is enough for the answer "covered". */
  lemma {:induction false} OneAxisDecision(query: BBX, status: nat, blocks: seq<BlockDescriptor>)
    requires query.Proper() && query.dims == 1 && query.status == status
    requires AllProper(blocks, 1)
    ensures Leftover([query], status, blocks).Ok?
    ensures Leftover([query], status, blocks).value == [] <==>
      exists k :: 0 <= k < |blocks| && Meets(query, blocks[k].Box())
    decreases |blocks|
  {
    if blocks != [] {
      var blk := blocks[0].Box();
      var rest := blocks[1..];
      OneAxisCut(query, blk);
      if Meets(query, blk) {
        NothingLeft(status + 1, rest);
      } else {
        var kept := query.(status := status + 1);
        OneAxisDecision(kept, status + 1, rest);
        MeetsLater(query, kept, blocks);
      }
    }
  }

  lemma {:induction false} NothingLeft(status: nat, blocks: seq<BlockDescriptor>)
    requires AllSized(blocks)
    ensures Leftover([], status, blocks) == Ok([])
    decreases |blocks|
  {
    if blocks != [] { NothingLeft(status + 1, blocks[1..]); }
  }

  /** For every list of blocks the answer is whether they cover the query. */
  ghost predicate AnswersCoverage(query: BBX)
    requires query.Proper() && query.status == 0
  {
    forall blocks: seq<BlockDescriptor> ::
      AllProper(blocks, query.dims) ==> CoverAnswer(blocks, query) == Ok(Covered(query, blocks))
  }

  /** The coverage test of a query is right for every list of blocks exactly
      when the query has more than one axis or a single cell. The witness for a
      longer 1-D query is the block of its first cell. */
  lemma CoverageExactIff(query: BBX)
    requires query.Proper() && query.status == 0
    ensures AnswersCoverage(query) <==> query.dims != 1 || query.Lo(0) == query.Hi(0)
  {
    if query.dims != 1 {
      forall blocks | AllProper(blocks, query.dims) ensures CoverAnswer(blocks, query) == Ok(Covered(query, blocks)) {
        CoverageDecision(query, blocks);
      }
    } else if query.Lo(0) == query.Hi(0) {
      forall blocks | AllProper(blocks, 1) ensures CoverAnswer(blocks, query) == Ok(Covered(query, blocks)) {
        OneAxisDecision(query, 0, blocks);
        OneCellCovered(query, blocks);
      }
    } else {
      var first := Point(query.Lo(0), 0, 0);
      var d := BlockDescriptor("", "b", "", Mem, 1, first, first);
      OneAxisDecision(query, 0, [d]);
      assert Meets(query, [d][0].Box());
      assert query.Has(query.Upper()) && !InBlocks(query.Upper(), [d], 1);
      assert !Covered(query, [d]) && CoverAnswer([d], query) == Ok(true);
    }
  }

  /** A single cell is covered exactly when some block meets it. */
  lemma OneCellCovered(query: BBX, blocks: seq<BlockDescriptor>)
    requires query.Proper() && query.dims == 1 && query.Lo(0) == query.Hi(0) && AllProper(blocks, 1)
    ensures Covered(query, blocks) <==> exists k :: 0 <= k < |blocks| && Meets(query, blocks[k].Box())
  {
    var cell := query.Lower();
    assert query.Has(cell) && forall p: Point :: query.Has(p) ==> p == cell;
    forall k | 0 <= k < |blocks| ensures Meets(query, blocks[k].Box()) <==> blocks[k].Box().Has(cell) {
      OverlapIsIntersection(query, blocks[k].Box());
    }
    if InBlocks(cell, blocks, 1) {
      assert forall p: Point :: query.Has(p) ==> InBlocks(p, blocks, 1);
    }
  }
}
