/** What the reader of the M:N put/get protocol promises, in terms of the
    descriptor lists that the metadata servers hold, and how the rounds of its
    loop add up to that promise. */
module Reader {
  import opened Outcomes
  import opened Boxes
  import opened Descriptors
  import opened Coverage
  import opened Dht
  import opened Matrix
  import opened Metadata

  // ------------------------------------------------------------------
  // The reader's outcome
  // ------------------------------------------------------------------

  datatype Outcome<T> =
    | Done(matrix: array<T>)     // the assembled matrix
    | Waiting                    // the run ended while a server still answered empty
    | Failed(error: Error)       // an exception reached the caller

  // ------------------------------------------------------------------
  // What a list of descriptors says
  // ------------------------------------------------------------------

  ghost predicate OfDims(trusted: iset<BlockDescriptor>, dims: nat) {
    forall d :: d in trusted ==> d.Sized() && d.Proper() && d.dims == dims
  }

  /** Everything recorded for the key is trusted. */
  ghost predicate Known(list: seq<BlockDescriptor>, trusted: iset<BlockDescriptor>) {
    forall i {:trigger list[i]} :: 0 <= i < |list| ==> list[i] in trusted
  }

  /** Arrivals the reader may meet: anything under other keys, trusted blocks
      under its own. */
  ghost predicate KnownRegs(regs: seq<Registration>, step: nat, varName: string, trusted: iset<BlockDescriptor>) {
    forall i {:trigger regs[i]} :: 0 <= i < |regs| ==>
      && regs[i].rde.Sized()
      && (regs[i].step == step && regs[i].varName == varName && regs[i].rde.dataType == DATATYPE_CARGRID ==>
            regs[i].rde in trusted)
  }

  /** One request of the reader: what the server registers since the previous
      request (or since the reader began), and between the two lookups of this
      one. */
  datatype Poll = Poll(since: seq<Registration>, during: seq<Registration>)

  ghost predicate KnownSchedule(polls: seq<Poll>, step: nat, varName: string, trusted: iset<BlockDescriptor>) {
    forall k {:trigger polls[k]} :: 0 <= k < |polls| ==>
      KnownRegs(polls[k].since, step, varName, trusted) && KnownRegs(polls[k].during, step, varName, trusted)
  }

  ghost predicate KnownPolls(polls: seq<seq<Poll>>, step: nat, varName: string, trusted: iset<BlockDescriptor>) {
    forall i :: 0 <= i < |polls| ==> KnownSchedule(polls[i], step, varName, trusted)
  }

  lemma {:induction false} ArrivedKnown(regs: seq<Registration>, step: nat, varName: string,
                                        trusted: iset<BlockDescriptor>)
    requires KnownRegs(regs, step, varName, trusted)
    ensures Known(Arrived(regs, step, varName, DATATYPE_CARGRID), trusted)
  {
    if regs != [] {
      ArrivedKnown(regs[..|regs| - 1], step, varName, trusted);
    }
  }

  lemma KnownConcat(xs: seq<BlockDescriptor>, ys: seq<BlockDescriptor>, trusted: iset<BlockDescriptor>)
    requires Known(xs, trusted) && Known(ys, trusted)
    ensures Known(xs + ys, trusted)
  {
  }

  lemma KnownProper(xs: seq<BlockDescriptor>, dims: nat, trusted: iset<BlockDescriptor>)
    requires Known(xs, trusted) && OfDims(trusted, dims)
    ensures AllSized(xs) && AllProper(xs, dims)
  {
  }

  /** What a list of descriptors says about a cell, a box and a query. */
  ghost predicate ListHas(list: seq<BlockDescriptor>, p: Point) {
    exists i :: 0 <= i < |list| && list[i].Sized() && list[i].Proper() && list[i].Box().Has(p)
  }

  ghost predicate Covers(list: seq<BlockDescriptor>, share: BBX)
    requires share.Valid()
  {
    forall p: Point :: share.Has(p) ==> ListHas(list, p)
  }

  /** What the coverage test of a server makes of a list: with one axis a block
      that merely meets the share is enough. */
  ghost predicate Deemed(list: seq<BlockDescriptor>, share: BBX)
    requires share.Valid()
  {
    if share.dims == 1 then exists i :: 0 <= i < |list| && BlockMeets(list[i], share) else Covers(list, share)
  }

  /** The server of the share takes it for covered. */
  ghost predicate Ready(list: seq<BlockDescriptor>, share: BBX) { share.Valid() && Deemed(list, share) }

  predicate BlockMeets(d: BlockDescriptor, share: BBX)
    requires share.Valid()
  {
    d.Sized() && d.Proper() && d.dims == share.dims && Meets(share, d.Box())
  }

  predicate BlockShows(d: BlockDescriptor, share: BBX, p: Point) {
    d.Sized() && d.Proper() && d.dims == share.dims && d.Box().Has(p)
  }

  /** The list shows the cell by a block of the share's dimension. */
  ghost predicate ListShows(list: seq<BlockDescriptor>, share: BBX, p: Point) {
    exists i :: 0 <= i < |list| && BlockShows(list[i], share, p)
  }

  lemma ShownIsDeemed(list: seq<BlockDescriptor>, share: BBX)
    requires share.Proper() && forall p: Point :: share.Has(p) ==> ListShows(list, share, p)
    ensures Deemed(list, share)
  {
    if share.dims == 1 {
      var p := share.Lower();
      assert share.Has(p) && ListShows(list, share, p);
      var i :| 0 <= i < |list| && BlockShows(list[i], share, p);
      OverlapIsIntersection(share, list[i].Box());
      assert BlockMeets(list[i], share);
    } else {
      forall p: Point | share.Has(p) ensures ListHas(list, p) {
        assert ListShows(list, share, p);
        var i :| 0 <= i < |list| && BlockShows(list[i], share, p);
      }
    }
  }

  /** The block meets the query in nothing but the last corner of the block. */
  predicate CornerOnly(d: BlockDescriptor, query: BBX)
    requires query.Valid()
  {
    && d.Sized() && d.Proper() && d.dims == query.dims && Meets(d.Box(), query)
    && LastCornerOnly(d.Box(), Clip(d.Box(), query))
  }

  ghost predicate CornerListed(list: seq<BlockDescriptor>, query: BBX)
    requires query.Valid()
  {
    exists i :: 0 <= i < |list| && CornerOnly(list[i], query)
  }

  lemma ListsGrow(first: seq<BlockDescriptor>, later: seq<BlockDescriptor>, query: BBX)
    requires first <= later && query.Valid()
    ensures forall p: Point :: ListHas(first, p) ==> ListHas(later, p)
    ensures Deemed(first, query) ==> Deemed(later, query)
    ensures CornerListed(first, query) ==> CornerListed(later, query)
  {
    forall p: Point | ListHas(first, p) ensures ListHas(later, p) {
      var i :| 0 <= i < |first| && first[i].Sized() && first[i].Proper() && first[i].Box().Has(p);
      assert later[i] == first[i];
    }
    if i :| 0 <= i < |first| && CornerOnly(first[i], query) { assert later[i] == first[i]; }
    if i :| 0 <= i < |first| && BlockMeets(first[i], query) { assert later[i] == first[i]; }
  }

  lemma CoversIsCovered(list: seq<BlockDescriptor>, share: BBX)
    requires share.Valid() && AllProper(list, share.dims)
    ensures Covers(list, share) <==> Covered(share, list)
    ensures forall p: Point :: ListHas(list, p) <==> InBlocks(p, list, share.dims)
  {
    forall p: Point ensures ListHas(list, p) <==> InBlocks(p, list, share.dims) {
      if k :| 0 <= k < |list| && list[k].Box().Has(p) { assert list[k].Sized() && list[k].Proper(); }
    }
  }

  /** The server's answer is non-empty exactly when its first lookup deemed the
      share covered, for any number of axes. */
  lemma ServerDeems(raw: seq<BlockDescriptor>, later: seq<BlockDescriptor>, partition: BBX, query: BBX)
    requires query.Proper() && partition.Proper() && partition.dims == query.dims && Meets(query, partition)
    requires raw <= later && AllSized(later) && AllProper(later, query.dims)
    requires AllSized(raw) && AllProper(raw, query.dims)
    ensures Answer(raw, later, partition, query) != [] <==> Deemed(raw, Clip(query, partition))
  {
    var share := Clip(query, partition);
    OverlapIsIntersection(query, partition);
    if query.dims >= 2 {
      ServerReady(raw, later, partition, query);
      CoversIsCovered(raw, share);
    } else {
      ServerReadyOneAxis(raw, later, partition, query);
      forall k | 0 <= k < |raw| ensures BlockMeets(raw[k], share) <==> Meets(share, raw[k].Box()) {
      }
    }
  }

  /** The answer holds exactly the clips of the listed blocks that meet the
      query. */
  ghost predicate AnswerOf(answer: seq<BlockDescriptor>, list: seq<BlockDescriptor>, query: BBX)
    requires query.Valid() && AllProper(list, query.dims)
  {
    && (forall e :: e in answer ==>
         exists i :: 0 <= i < |list| && Meets(list[i].Box(), query) && e == Clipped(list[i], query))
    && (forall i :: 0 <= i < |list| && Meets(list[i].Box(), query) ==> Clipped(list[i], query) in answer)
  }

  lemma AnswerIsClips(raw: seq<BlockDescriptor>, later: seq<BlockDescriptor>, partition: BBX, query: BBX)
    requires query.Proper() && partition.Valid() && AllSized(raw) && AllSized(later) && AllProper(later, query.dims)
    requires Answer(raw, later, partition, query) != []
    ensures AnswerOf(Answer(raw, later, partition, query), later, query)
  {
    EndpointMembers(later, query);
    forall i | 0 <= i < |later| && Meets(later[i].Box(), query)
      ensures Clipped(later[i], query) in Answer(raw, later, partition, query)
    {
      assert later[i] in later;
    }
  }

  // ------------------------------------------------------------------
  // Polling one server
  // ------------------------------------------------------------------

  /** The blocks of the reader's key among some registrations. */
  function Fresh(regs: seq<Registration>, step: nat, varName: string): seq<BlockDescriptor> {
    Arrived(regs, step, varName, DATATYPE_CARGRID)
  }

  /** What the first lookup of request k sees at a server that listed `list`
      when the reader began. */
  function FirstLookup(list: seq<BlockDescriptor>, polls: seq<Poll>, k: nat, step: nat, varName: string)
    : seq<BlockDescriptor>
    requires k < |polls|
  {
    if k == 0 then list + Fresh(polls[0].since, step, varName)
    else
      FirstLookup(list, polls, k - 1, step, varName) + Fresh(polls[k - 1].during, step, varName)
        + Fresh(polls[k].since, step, varName)
  }

  /** A server when the reader has stopped polling it: its list, and whether its
      last answer was non-empty. */
  datatype Seen = Seen(list: seq<BlockDescriptor>, answered: bool)

  /** The retry loop: it stops at the first request whose first lookup takes the
      share for covered, or when the requests run out. */
  ghost function Polled(list: seq<BlockDescriptor>, polls: seq<Poll>, share: BBX, step: nat, varName: string): (r: Seen)
    ensures list <= r.list
    ensures r.answered ==> Ready(r.list, share)
    decreases |polls|
  {
    if polls == [] then Seen(list, false)
    else
      var raw := list + Fresh(polls[0].since, step, varName);
      var later := raw + Fresh(polls[0].during, step, varName);
      if Ready(raw, share) then
        ListsGrow(raw, later, share);
        Seen(later, true)
      else Polled(later, polls[1..], share, step, varName)
  }

  lemma {:induction false} LookupShift(list: seq<BlockDescriptor>, polls: seq<Poll>, k: nat, step: nat, varName: string)
    requires 0 < k < |polls|
    ensures FirstLookup(list, polls, k, step, varName)
         == FirstLookup(list + Fresh(polls[0].since, step, varName) + Fresh(polls[0].during, step, varName),
                        polls[1..], k - 1, step, varName)
  {
    if k > 1 { LookupShift(list, polls, k - 1, step, varName); }
  }

  /** The first lookup of request k takes the share for covered. */
  ghost predicate CoveredAt(list: seq<BlockDescriptor>, polls: seq<Poll>, k: int, share: BBX, step: nat,
                            varName: string) {
    0 <= k < |polls| && Ready(FirstLookup(list, polls, k, step, varName), share)
  }

  /** The loop ends with an answer exactly when some request comes late enough to
      find the share covered. */
  lemma {:induction false} PolledIff(list: seq<BlockDescriptor>, polls: seq<Poll>, share: BBX, step: nat,
                                     varName: string)
    ensures Polled(list, polls, share, step, varName).answered <==>
      exists k :: CoveredAt(list, polls, k, share, step, varName)
    decreases |polls|
  {
    if polls != [] {
      var raw := list + Fresh(polls[0].since, step, varName);
      var later := raw + Fresh(polls[0].during, step, varName);
      assert CoveredAt(list, polls, 0, share, step, varName) <==> Ready(raw, share);
      if !Ready(raw, share) {
        var rest := polls[1..];
        PolledIff(later, rest, share, step, varName);
        forall k: int | k != 0
          ensures CoveredAt(list, polls, k, share, step, varName) <==>
            CoveredAt(later, rest, k - 1, share, step, varName)
        {
          if 0 < k < |polls| { LookupShift(list, polls, k, step, varName); }
        }
        if k :| CoveredAt(later, rest, k, share, step, varName) {
          assert CoveredAt(list, polls, k + 1, share, step, varName);
        }
      }
    }
  }

  /** Lookups only see more, so the last request decides. */
  lemma {:induction false} LastDecides(list: seq<BlockDescriptor>, polls: seq<Poll>, k: nat, share: BBX, step: nat,
                                       varName: string)
    requires CoveredAt(list, polls, k, share, step, varName)
    ensures CoveredAt(list, polls, |polls| - 1, share, step, varName)
    decreases |polls| - k
  {
    if k + 1 < |polls| {
      ListsGrow(FirstLookup(list, polls, k, step, varName), FirstLookup(list, polls, k + 1, step, varName), share);
      LastDecides(list, polls, k + 1, share, step, varName);
    }
  }

  /** What a lookup sees is the list at the beginning and what arrived. */
  lemma {:induction false} LookupSplit(list: seq<BlockDescriptor>, polls: seq<Poll>, k: nat, step: nat, varName: string)
    requires k < |polls|
    ensures FirstLookup(list, polls, k, step, varName) == list + FirstLookup([], polls, k, step, varName)
  {
    if k > 0 { LookupSplit(list, polls, k - 1, step, varName); }
  }

  /** Polling brings nothing untrusted into a list. */
  lemma {:induction false} PolledKnown(list: seq<BlockDescriptor>, polls: seq<Poll>, share: BBX, step: nat,
                                       varName: string, trusted: iset<BlockDescriptor>)
    requires Known(list, trusted) && KnownSchedule(polls, step, varName, trusted)
    ensures Known(Polled(list, polls, share, step, varName).list, trusted)
    decreases |polls|
  {
    if polls != [] {
      ArrivedKnown(polls[0].since, step, varName, trusted);
      ArrivedKnown(polls[0].during, step, varName, trusted);
      var raw := list + Fresh(polls[0].since, step, varName);
      if !Ready(raw, share) {
        PolledKnown(raw + Fresh(polls[0].during, step, varName), polls[1..], share, step, varName, trusted);
      }
    }
  }

  // ------------------------------------------------------------------
  // Shares of a query
  // ------------------------------------------------------------------

  predicate ShareHas(e: ResponsibleMetaServer, p: Point) { e.bbx.Valid() && e.bbx.Has(p) }

  ghost predicate InShares(shares: seq<ResponsibleMetaServer>, p: Point) {
    exists i :: 0 <= i < |shares| && ShareHas(shares[i], p)
  }

  /** No cell lies in two shares. */
  ghost predicate SharesApart(shares: seq<ResponsibleMetaServer>) {
    forall i, j, p: Point :: 0 <= i < j < |shares| ==> !(ShareHas(shares[i], p) && ShareHas(shares[j], p))
  }

  predicate ShareShaped(query: BBX, partition: BBX, share: BBX)
    requires query.Valid()
  {
    && partition.Proper() && partition.dims == query.dims && Meets(query, partition)
    && share == Clip(query, partition) && share.Proper()
  }

  lemma SharesTile(list: seq<ResponsibleMetaServer>, query: BBX)
    requires query.Valid()
    requires forall i, j :: 0 <= i < j < |list| ==> list[i].metaServerID < list[j].metaServerID
    requires forall e :: e in list ==> e.bbx.Proper()
    requires forall p: Point :: query.Has(p) ==> exists e :: e in list && ShareHas(e, p)
    requires forall p: Point, e, f :: e in list && f in list && ShareHas(e, p) && ShareHas(f, p) ==> e == f
    ensures SharesApart(list) && forall p: Point :: query.Has(p) ==> InShares(list, p)
  {
    forall p: Point | query.Has(p) ensures InShares(list, p) {
      var e :| e in list && ShareHas(e, p);
      var i :| 0 <= i < |list| && list[i] == e;
    }
    forall i, j, p: Point | 0 <= i < j < |list| ensures !(ShareHas(list[i], p) && ShareHas(list[j], p)) {
      assert list[i] in list && list[j] in list && list[i] != list[j];
    }
  }

  // ------------------------------------------------------------------
  // Views of the field
  // ------------------------------------------------------------------

  /** Views that carry the field's values. */
  ghost predicate FieldViews<T>(views: seq<MatrixView<T>>, query: BBX, field: Point -> T)
    requires query.Proper()
  {
    GoodViews(views, query) && forall i {:trigger views[i]} :: 0 <= i < |views| ==> FieldView(views[i], field)
  }

  ghost predicate FieldView<T>(v: MatrixView<T>, field: Point -> T)
    requires v.bbx.Proper() && |v.data| == v.bbx.Volume()
  {
    forall p: Point :: v.bbx.Has(p) ==> ValueIn(v, p) == field(p)
  }

  /** The views gained exactly the cells of the query in the listed blocks. */
  ghost predicate ViewsGrew<T>(before: seq<MatrixView<T>>, after: seq<MatrixView<T>>, list: seq<BlockDescriptor>,
                               query: BBX)
    requires GoodViews(before, query) && GoodViews(after, query)
  {
    forall p: Point :: InSomeView(after, p) <==> InSomeView(before, p) || (query.Has(p) && ListHas(list, p))
  }

  /** The first n descriptors have their pieces behind the earlier views. */
  ghost predicate ShowsPrefix<T>(bdList: seq<BlockDescriptor>, n: nat, views: seq<MatrixView<T>>,
                                 pieces: seq<MatrixView<T>>)
    requires n <= |bdList|
  {
    && |pieces| == |views| + n
    && (forall i {:trigger views[i]} :: 0 <= i < |views| ==> pieces[i] == views[i])
    && (forall k {:trigger bdList[k]} :: 0 <= k < n ==> bdList[k].Sized() && pieces[|views| + k].bbx == bdList[k].Box())
  }

  lemma PieceAdded<T>(bdList: seq<BlockDescriptor>, n: nat, views: seq<MatrixView<T>>, pieces: seq<MatrixView<T>>,
                      piece: MatrixView<T>, query: BBX, field: Point -> T)
    requires n < |bdList| && query.Proper() && FieldViews(pieces, query, field) && ShowsPrefix(bdList, n, views, pieces)
    requires GoodView(piece, query) && FieldView(piece, field) && bdList[n].Sized() && piece.bbx == bdList[n].Box()
    ensures FieldViews(pieces + [piece], query, field) && ShowsPrefix(bdList, n + 1, views, pieces + [piece])
  {
  }

  /** The pieces fetched for an answer show exactly the listed blocks' cells. */
  lemma PiecesShowList<T>(bdList: seq<BlockDescriptor>, list: seq<BlockDescriptor>, query: BBX,
                          views: seq<MatrixView<T>>, pieces: seq<MatrixView<T>>)
    requires query.Proper() && AllProper(list, query.dims) && AnswerOf(bdList, list, query)
    requires GoodViews(views, query) && GoodViews(pieces, query)
    requires ShowsPrefix(bdList, |bdList|, views, pieces)
    ensures ViewsGrew(views, pieces, list, query)
  {
    forall p: Point ensures InSomeView(pieces, p) <==> InSomeView(views, p) || (query.Has(p) && ListHas(list, p)) {
      if InSomeView(pieces, p) {
        var i :| 0 <= i < |pieces| && pieces[i].bbx.Has(p);
        if i < |views| {
          assert views[i] == pieces[i];
        } else {
          var e := bdList[i - |views|];
          assert e in bdList && pieces[|views| + (i - |views|)].bbx == e.Box();
          var j :| 0 <= j < |list| && Meets(list[j].Box(), query) && e == Clipped(list[j], query);
          ClippedBox(list[j], query);
        }
      }
      if InSomeView(views, p) {
        var i :| 0 <= i < |views| && views[i].bbx.Has(p);
        assert pieces[i] == views[i];
      }
      if query.Has(p) && ListHas(list, p) {
        var j :| 0 <= j < |list| && list[j].Sized() && list[j].Proper() && list[j].Box().Has(p);
        OverlapIsIntersection(list[j].Box(), query);
        ClippedBox(list[j], query);
        var k :| 0 <= k < |bdList| && bdList[k] == Clipped(list[j], query);
        assert pieces[|views| + k].bbx.Has(p);
      }
    }
  }

  lemma CornersAgree(a: BBX, b: BBX)
    requires a.Valid() && b.Valid() && SameBox(a, b)
    ensures a.Lower() == b.Lower() && a.Upper() == b.Upper()
  {
  }

  lemma ClippedCorners(d: BlockDescriptor, query: BBX)
    requires d.Sized() && d.Proper() && query.Proper() && d.dims == query.dims && Meets(d.Box(), query)
    requires Int32Point(query.Lower()) && Int32Point(query.Upper())
    ensures var e := Clipped(d, query);
      && Clamp(query.dims, e.indexlb) == e.indexlb && Clamp(query.dims, e.indexub) == e.indexub
      && Int32Point(e.indexlb) && Int32Point(e.indexub)
  {
    var c := Clip(d.Box(), query);
    ClippedBox(d, query);
    OverlapIsIntersection(d.Box(), query);
    assert c.Has(c.Lower()) && c.Has(c.Upper());
    assert query.Has(c.Lower()) && query.Has(c.Upper());
  }

  // ------------------------------------------------------------------
  // The loop over the servers
  // ------------------------------------------------------------------

  /** Every server of the list, once the reader has polled it. */
  ghost function Answers(before: seq<seq<BlockDescriptor>>, polls: seq<seq<Poll>>, shares: seq<ResponsibleMetaServer>,
                         step: nat, varName: string)
    : (r: seq<Seen>)
    requires |shares| == |before| <= |polls|
    ensures |r| == |shares|
    ensures forall i {:trigger r[i]} :: 0 <= i < |r| ==>
      r[i] == Polled(before[i], polls[i], shares[i].bbx, step, varName)
  {
    if shares == [] then []
    else
      [Polled(before[0], polls[0], shares[0].bbx, step, varName)]
        + Answers(before[1..], polls[1..], shares[1..], step, varName)
  }

  /** The first n servers answer, and none of them lists a block that meets the
      query in its last corner alone. */
  ghost predicate Clear(answers: seq<Seen>, n: nat, query: BBX)
    requires n <= |answers| && query.Valid()
  {
    forall i {:trigger answers[i]} :: 0 <= i < n ==> answers[i].answered && !CornerListed(answers[i].list, query)
  }

  /** Server j is the first at which the reader fails. */
  ghost predicate FailsAt(answers: seq<Seen>, j: nat, query: BBX)
    requires j < |answers| && query.Valid()
  {
    Clear(answers, j, query) && answers[j].answered && CornerListed(answers[j].list, query)
  }

  /** Server j is the one that the reader waits for in vain. */
  ghost predicate StarvesAt(answers: seq<Seen>, j: nat, query: BBX)
    requires j < |answers| && query.Valid()
  {
    Clear(answers, j, query) && !answers[j].answered
  }

  ghost predicate Fails(answers: seq<Seen>, query: BBX)
    requires query.Valid()
  {
    exists j :: 0 <= j < |answers| && FailsAt(answers, j, query)
  }

  ghost predicate Starves(answers: seq<Seen>, query: BBX)
    requires query.Valid()
  {
    exists j :: 0 <= j < |answers| && StarvesAt(answers, j, query)
  }

  /** Exactly one of the three happens. */
  lemma OneFate(answers: seq<Seen>, query: BBX)
    requires query.Valid()
    ensures !(Fails(answers, query) && Starves(answers, query))
    ensures Clear(answers, |answers|, query) <==> !Fails(answers, query) && !Starves(answers, query)
  {
    if !Clear(answers, |answers|, query) {
      FirstTrouble(answers, |answers|, query);
    }
  }

  lemma {:induction false} FirstTrouble(answers: seq<Seen>, n: nat, query: BBX)
    requires n <= |answers| && query.Valid() && !Clear(answers, n, query)
    ensures Fails(answers, query) || Starves(answers, query)
  {
    if Clear(answers, n - 1, query) {
      assert FailsAt(answers, n - 1, query) || StarvesAt(answers, n - 1, query);
    } else {
      FirstTrouble(answers, n - 1, query);
    }
  }

  /** One of the first n servers lists a block that holds the cell. */
  ghost predicate SeenBy(answers: seq<Seen>, n: nat, p: Point)
    requires n <= |answers|
  {
    exists i :: 0 <= i < n && ListHas(answers[i].list, p)
  }

  /** The state of the loop after n servers: the views carry the field and show
      exactly the cells of the query that those servers list. */
  ghost predicate Gathered<T>(views: seq<MatrixView<T>>, query: BBX, answers: seq<Seen>, n: nat, field: Point -> T)
    requires query.Proper() && n <= |answers|
  {
    && FieldViews(views, query, field) && Clear(answers, n, query)
    && forall p: Point :: InSomeView(views, p) <==> query.Has(p) && SeenBy(answers, n, p)
  }

  /** What polling one server and fetching its pieces leads to. */
  ghost predicate OneRead<T>(r: Result<Option<seq<MatrixView<T>>>>, views: seq<MatrixView<T>>, query: BBX, seen: Seen,
                             field: Point -> T)
    requires query.Proper() && GoodViews(views, query)
  {
    && (r.Err? <==> seen.answered && CornerListed(seen.list, query))
    && (r == Ok(None) <==> !seen.answered)
    && (r.Ok? && r.value.Some? ==>
         FieldViews(r.value.value, query, field) && ViewsGrew(views, r.value.value, seen.list, query))
  }

  lemma GatheredNext<T>(r: Result<Option<seq<MatrixView<T>>>>, views: seq<MatrixView<T>>, query: BBX,
                        answers: seq<Seen>, n: nat, field: Point -> T)
    requires query.Proper() && n < |answers| && Gathered(views, query, answers, n, field)
    requires OneRead(r, views, query, answers[n], field)
    ensures r.Err? ==> FailsAt(answers, n, query)
    ensures r == Ok(None) ==> StarvesAt(answers, n, query)
    ensures r.Ok? && r.value.Some? ==> Gathered(r.value.value, query, answers, n + 1, field)
  {
    if r.Ok? && r.value.Some? {
      forall p: Point ensures InSomeView(r.value.value, p) <==> query.Has(p) && SeenBy(answers, n + 1, p) {
        if SeenBy(answers, n, p) {
          var i :| 0 <= i < n && ListHas(answers[i].list, p);
          assert i < n + 1;
        }
        assert ListHas(answers[n].list, p) ==> SeenBy(answers, n + 1, p);
      }
    }
  }

  /** The lists of the servers once n of them have been polled. */
  ghost predicate Advanced(before: seq<seq<BlockDescriptor>>, now: seq<seq<BlockDescriptor>>, answers: seq<Seen>,
                           n: nat) {
    && |now| == |before| == |answers|
    && forall k {:trigger now[k]} :: 0 <= k < |now| ==> now[k] == if k < n then answers[k].list else before[k]
  }

  lemma AdvancedNext(before: seq<seq<BlockDescriptor>>, now: seq<seq<BlockDescriptor>>,
                     later: seq<seq<BlockDescriptor>>, answers: seq<Seen>, n: nat)
    requires n < |answers| && Advanced(before, now, answers, n) && |later| == |now| && later[n] == answers[n].list
    requires forall k {:trigger later[k]} :: 0 <= k < |later| && k != n ==> later[k] == now[k]
    ensures Advanced(before, later, answers, n + 1)
  {
  }

  /** The lists that the call leaves behind: the reader gets as far as the first
      server that makes it fail or wait. */
  ghost predicate LeftLists(before: seq<seq<BlockDescriptor>>, after: seq<seq<BlockDescriptor>>, answers: seq<Seen>,
                            query: BBX)
    requires query.Valid()
  {
    && |after| == |before| == |answers|
    && forall k {:trigger after[k]} :: 0 <= k < |after| ==>
         after[k] == if Clear(answers, k, query) then answers[k].list else before[k]
  }

  lemma StopsAt(before: seq<seq<BlockDescriptor>>, after: seq<seq<BlockDescriptor>>, answers: seq<Seen>, n: nat,
                query: BBX)
    requires query.Valid() && n <= |answers| && Clear(answers, n, query)
    requires if n == |answers| then Advanced(before, after, answers, n)
             else !Clear(answers, n + 1, query) && Advanced(before, after, answers, n + 1)
    ensures LeftLists(before, after, answers, query)
  {
    forall k | 0 <= k < |after| ensures after[k] == if Clear(answers, k, query) then answers[k].list else before[k] {
      if k > n && Clear(answers, k, query) { assert Clear(answers, n + 1, query); }
    }
  }

  // ------------------------------------------------------------------
  // The whole call
  // ------------------------------------------------------------------

  /** What the loop over the servers leads to. */
  ghost predicate AllRead<T>(r: Result<Option<seq<MatrixView<T>>>>, query: BBX, answers: seq<Seen>, field: Point -> T)
    requires query.Proper()
  {
    && (r.Err? ==> Fails(answers, query))
    && (r == Ok(None) ==> Starves(answers, query))
    && (r.Ok? && r.value.Some? ==> Gathered(r.value.value, query, answers, |answers|, field))
  }

  /** The returned matrix, cell by cell: the field where some server lists the
      cell, what the fresh buffer held where none does. */
  ghost predicate ReadBack<T>(out: seq<T>, init: seq<T>, query: BBX, answers: seq<Seen>, field: Point -> T)
    requires query.Valid()
  {
    && |out| == query.Volume() == |init|
    && forall p: Point :: query.Has(p) ==>
         && 0 <= query.Index(p) < |out|
         && out[query.Index(p)] == if SeenBy(answers, |answers|, p) then field(p) else init[query.Index(p)]
  }

  /** The field at every cell of the query. */
  ghost predicate FieldAt<T>(out: seq<T>, query: BBX, field: Point -> T)
    requires query.Valid()
  {
    |out| == query.Volume()
    && forall p: Point :: query.Has(p) ==> 0 <= query.Index(p) < |out| && out[query.Index(p)] == field(p)
  }

  /** What the reader does, exactly, given what its servers come to answer. */
  ghost predicate ReadSpec<T>(r: Outcome<T>, out: seq<T>, init: seq<T>, query: BBX, answers: seq<Seen>,
                              field: Point -> T)
    requires query.Valid()
  {
    && (r.Failed? <==> Fails(answers, query))
    && (r.Waiting? <==> Starves(answers, query))
    && (r.Done? <==> Clear(answers, |answers|, query))
    && (r.Done? ==> ReadBack(out, init, query, answers, field))
  }

  /** Cells that the views show hold the field, and any other is untouched. */
  lemma AssembledIsField<T>(views: seq<MatrixView<T>>, query: BBX, init: seq<T>, out: seq<T>, answers: seq<Seen>,
                            field: Point -> T)
    requires query.Proper() && |init| == |out| == query.Volume() && Gathered(views, query, answers, |answers|, field)
    requires Holds(out, views, query, init)
    ensures ReadBack(out, init, query, answers, field)
  {
    forall p: Point | query.Has(p)
      ensures 0 <= query.Index(p) < |out|
      ensures out[query.Index(p)] == if SeenBy(answers, |answers|, p) then field(p) else init[query.Index(p)]
    {
      AssembledValue(views, query, init, p);
    }
  }

  /** With two or three axes a done reader has the field in every share whose
      server it was told of, so in the whole query if the shares hold it. */
  lemma SharesGiveField<T>(out: seq<T>, init: seq<T>, query: BBX, answers: seq<Seen>,
                           shares: seq<ResponsibleMetaServer>, field: Point -> T)
    requires query.Valid() && query.dims >= 2 && ReadBack(out, init, query, answers, field)
    requires Clear(answers, |answers|, query) && |shares| == |answers|
    requires forall i {:trigger shares[i]} :: 0 <= i < |shares| ==>
      && shares[i].bbx.Valid() && shares[i].bbx.dims == query.dims
      && (answers[i].answered ==> Ready(answers[i].list, shares[i].bbx))
    ensures forall p: Point :: query.Has(p) && InShares(shares, p) ==>
      0 <= query.Index(p) < |out| && out[query.Index(p)] == field(p)
    ensures (forall p: Point :: query.Has(p) ==> InShares(shares, p)) ==> FieldAt(out, query, field)
  {
    forall p: Point | query.Has(p) && InShares(shares, p) ensures SeenBy(answers, |answers|, p) {
      var i :| 0 <= i < |shares| && ShareHas(shares[i], p);
      assert answers[i].answered && ListHas(answers[i].list, p);
    }
  }

  /** A client that is told of no server at all does not notice: it is done at
      once, with whatever its fresh buffer held. */
  lemma NoneTold<T>(r: Outcome<T>, out: seq<T>, init: seq<T>, query: BBX, field: Point -> T)
    requires query.Proper() && ReadSpec(r, out, init, query, [], field)
    ensures r.Done? && out == init
  {
    forall i | 0 <= i < |out| ensures out[i] == init[i] {
      IndexSurjective(query, i);
      assert !SeenBy([], 0, Cell(query, i));
    }
  }
}
