/** The M:N put/get protocol: registration of a put block, and
    getArbitraryData of client/ClientForSim.cpp over the metadata servers and
    the data servers. */
module Get {
  import opened Outcomes
  import opened Boxes
  import opened Descriptors
  import opened Coverage
  import opened Dht
  import opened Matrix
  import opened Metadata
  import opened Reader
  import opened Staging

  // ------------------------------------------------------------------
  // getmetaServerList
  // ------------------------------------------------------------------

  /** The entries before the first partition without an address: the handler
      answers with what it has when it meets a missing address. */
  function Served(list: seq<ResponsibleMetaServer>, addrs: map<int, string>): (r: seq<ResponsibleMetaServer>)
    ensures r <= list
    ensures forall i {:trigger r[i]} :: 0 <= i < |r| ==> r[i].metaServerID in addrs
    ensures |r| < |list| ==> list[|r|].metaServerID !in addrs
  {
    if list == [] || list[0].metaServerID !in addrs then []
    else [list[0]] + Served(list[1..], addrs)
  }

  /** The list is complete exactly when no address is missing. */
  lemma ServedIff(list: seq<ResponsibleMetaServer>, addrs: map<int, string>)
    ensures |Served(list, addrs)| == |list| <==> forall e :: e in list ==> e.metaServerID in addrs
  {
    var r := Served(list, addrs);
    if |r| == |list| {
      forall e | e in list ensures e.metaServerID in addrs {
        var i :| 0 <= i < |list| && list[i] == e;
        assert r[i] == e;
      }
    }
  }

  /** The shares of a query whose servers the client is told. */
  ghost function Shares(dht: DHTManager, query: BBX): seq<ResponsibleMetaServer>
    requires dht.Valid() && |query.bounds| == query.dims
    reads dht
  {
    var list := Responsible(dht.boxes, |dht.boxes|, query);
    if list.Ok? then Served(list.value, dht.metaServerIDToAddr) else []
  }

  function Addresses(served: seq<ResponsibleMetaServer>, addrs: map<int, string>): (r: seq<string>)
    requires forall i {:trigger served[i]} :: 0 <= i < |served| ==> served[i].metaServerID in addrs
    ensures |r| == |served|
    ensures forall i {:trigger r[i]} :: 0 <= i < |r| ==> r[i] == addrs[served[i].metaServerID]
  {
    if served == [] then [] else [addrs[served[0].metaServerID]] + Addresses(served[1..], addrs)
  }

  ghost function MetaList(dht: DHTManager, query: BBX): (r: seq<string>)
    requires dht.Valid() && |query.bounds| == query.dims
    reads dht
    ensures |r| == |Shares(dht, query)|
    ensures forall i {:trigger r[i]} :: 0 <= i < |r| ==>
      Shares(dht, query)[i].metaServerID in dht.metaServerIDToAddr
      && r[i] == dht.metaServerIDToAddr[Shares(dht, query)[i].metaServerID]
  {
    Addresses(Shares(dht, query), dht.metaServerIDToAddr)
  }

  method GetMetaServerList(dht: DHTManager, query: BBX) returns (r: seq<string>)
    requires dht.Valid() && |query.bounds| == query.dims
    ensures r == MetaList(dht, query)
    ensures var list := Responsible(dht.boxes, |dht.boxes|, query);
      if list.Err? then r == []
      else
        && |r| <= |list.value|
        && (forall i :: 0 <= i < |r| ==>
             && list.value[i].metaServerID in dht.metaServerIDToAddr
             && r[i] == dht.metaServerIDToAddr[list.value[i].metaServerID])
        && (|r| == |list.value| <==> forall e :: e in list.value ==> e.metaServerID in dht.metaServerIDToAddr)
  {
    var list := dht.GetMetaServerID(query);
    r := [];
    if list.Err? { return; }
    ghost var served := Served(list.value, dht.metaServerIDToAddr);
    ServedIff(list.value, dht.metaServerIDToAddr);
    for i := 0 to |list.value|
      invariant i <= |served| && |r| == i
      invariant forall k :: 0 <= k < i ==> r[k] == dht.metaServerIDToAddr[served[k].metaServerID]
    {
      var id := list.value[i].metaServerID;
      if id !in dht.metaServerIDToAddr {
        assert i == |served|;
        assert r == MetaList(dht, query);
        return;
      }
      r := r + [dht.metaServerIDToAddr[id]];
    }
    assert r == MetaList(dht, query);
  }

  /** Every partition that meets the query has an address. */
  ghost predicate AllServed(dht: DHTManager, query: BBX)
    requires query.Valid()
    reads dht
  {
    forall id | 0 <= id < |dht.boxes| && dht.boxes[id].Valid() && dht.boxes[id].dims == query.dims
                && Meets(query, dht.boxes[id]) :: id in dht.metaServerIDToAddr
  }

  /** The shares the client is told of are clips of their partitions, and they
      hold every cell of the query exactly when no address it needs is missing:
      a shortened list always leaves cells out. */
  lemma SharesCoverIff(dht: DHTManager, lens: seq<int>, parts: seq<int>, servers: map<string, MetaServer>, query: BBX)
    requires Placed(dht, lens, parts, servers)
    requires query.Proper() && query.dims == |lens| && Inside(query, Domain(lens))
    ensures |Shares(dht, query)| <= |dht.boxes|
    ensures forall i {:trigger Shares(dht, query)[i]} :: 0 <= i < |Shares(dht, query)| ==>
      ShareOf(dht, query, Shares(dht, query)[i])
    ensures (forall p: Point :: query.Has(p) ==> InShares(Shares(dht, query), p)) <==> AllServed(dht, query)
  {
    var list := Asked(dht, lens, parts, query);
    AskedAtMost(dht.boxes, |dht.boxes|, query);
    ServedIff(list, dht.metaServerIDToAddr);
    AllServedIff(dht, query, list);
    PrefixCovers(list, Served(list, dht.metaServerIDToAddr), query, dht);
  }

  /** All shares of a query: clips of the partitions they name, by increasing
      ID, disjoint and holding every cell of the query. */
  lemma Asked(dht: DHTManager, lens: seq<int>, parts: seq<int>, query: BBX) returns (list: seq<ResponsibleMetaServer>)
    requires Layout(lens, parts) && |lens| >= 1 && dht.boxes == Partitions(lens, parts)
    requires query.Proper() && query.dims == |lens| && Inside(query, Domain(lens))
    ensures forall i {:trigger dht.boxes[i]} :: 0 <= i < |dht.boxes| ==>
      |dht.boxes[i].bounds| == dht.boxes[i].dims && dht.boxes[i].Valid() && dht.boxes[i].dims == query.dims
    ensures Responsible(dht.boxes, |dht.boxes|, query) == Ok(list)
    ensures forall i {:trigger list[i]} :: 0 <= i < |list| ==> ShareOf(dht, query, list[i])
    ensures SharesApart(list) && forall p: Point :: query.Has(p) ==> InShares(list, p)
  {
    PartitionsValid(lens, parts);
    MetaServersTileQuery(lens, parts, query);
    ResponsibleMembers(dht.boxes, |dht.boxes|, query);
    list := Responsible(dht.boxes, |dht.boxes|, query).value;
    forall i | 0 <= i < |list| ensures ShareOf(dht, query, list[i]) {
      assert list[i] in list;
      PartMeetsIff(lens, parts, query, list[i].metaServerID);
    }
    forall p: Point | query.Has(p) ensures exists e :: e in list && ShareHas(e, p) {
      var e :| e in list && e.bbx.Has(p);
      assert ShareHas(e, p);
    }
    SharesTile(list, query);
  }

  ghost predicate ShareOf(dht: DHTManager, query: BBX, e: ResponsibleMetaServer)
    requires query.Valid()
    reads dht
  {
    0 <= e.metaServerID < |dht.boxes| && ShareShaped(query, dht.boxes[e.metaServerID], e.bbx)
  }

  lemma AllServedIff(dht: DHTManager, query: BBX, list: seq<ResponsibleMetaServer>)
    requires query.Valid()
    requires forall i {:trigger dht.boxes[i]} :: 0 <= i < |dht.boxes| ==>
      |dht.boxes[i].bounds| == dht.boxes[i].dims && dht.boxes[i].Valid() && dht.boxes[i].dims == query.dims
    requires Responsible(dht.boxes, |dht.boxes|, query) == Ok(list)
    ensures AllServed(dht, query) <==> forall e :: e in list ==> e.metaServerID in dht.metaServerIDToAddr
  {
    ResponsibleMembers(dht.boxes, |dht.boxes|, query);
    if forall e :: e in list ==> e.metaServerID in dht.metaServerIDToAddr {
      forall id | 0 <= id < |dht.boxes| && Meets(query, dht.boxes[id]) ensures id in dht.metaServerIDToAddr {
        assert ResponsibleMetaServer(id, Clip(query, dht.boxes[id])) in list;
      }
    }
  }

  /** The first cell of a share that was cut off lies in no share that was not. */
  lemma PrefixCovers(list: seq<ResponsibleMetaServer>, shares: seq<ResponsibleMetaServer>, query: BBX, dht: DHTManager)
    requires query.Proper() && shares <= list
    requires forall i {:trigger list[i]} :: 0 <= i < |list| ==> ShareOf(dht, query, list[i])
    requires SharesApart(list) && forall p: Point :: query.Has(p) ==> InShares(list, p)
    ensures forall i {:trigger shares[i]} :: 0 <= i < |shares| ==> ShareOf(dht, query, shares[i])
    ensures (forall p: Point :: query.Has(p) ==> InShares(shares, p)) <==> |shares| == |list|
  {
    forall i | 0 <= i < |shares| ensures ShareOf(dht, query, shares[i]) { assert shares[i] == list[i]; }
    if |shares| < |list| {
      var e := list[|shares|];
      assert ShareOf(dht, query, e);
      var p := e.bbx.Lower();
      OverlapIsIntersection(query, dht.boxes[e.metaServerID]);
      assert ShareHas(list[|shares|], p) && query.Has(p);
      forall i | 0 <= i < |shares| ensures !ShareHas(shares[i], p) { assert shares[i] == list[i]; }
    } else {
      assert shares == list;
    }
  }

  // ------------------------------------------------------------------
  // Polling one metadata server
  // ------------------------------------------------------------------

  /** The retry loop of getArbitraryData against one server. `polls` lists the
      requests with the registrations around them; the loop gives up when the run
      ends, and it has an answer exactly when some request found the share
      covered. */
  method PollServer(server: MetaServer, partition: BBX, step: nat, varName: string, query: BBX,
                    polls: seq<Poll>, ghost trusted: iset<BlockDescriptor>)
    returns (bdList: seq<BlockDescriptor>)
    requires query.Proper() && partition.Proper() && partition.dims == query.dims
    requires Meets(query, partition)
    requires server.manager.Valid() && OfDims(trusted, query.dims)
    requires Known(Listed(server.manager, step, varName), trusted)
    requires KnownSchedule(polls, step, varName, trusted)
    modifies server.manager
    ensures server.manager.Valid() && Known(Listed(server.manager, step, varName), trusted)
    ensures Polled(old(Listed(server.manager, step, varName)), polls, Clip(query, partition), step, varName)
         == Seen(Listed(server.manager, step, varName), bdList != [])
    ensures bdList != [] <==>
      exists k :: CoveredAt(old(Listed(server.manager, step, varName)), polls, k, Clip(query, partition), step, varName)
    ensures bdList != [] ==>
      var list := Listed(server.manager, step, varName); AllProper(list, query.dims) && AnswerOf(bdList, list, query)
  {
    bdList := [];
    ghost var first := Listed(server.manager, step, varName);
    ghost var share := Clip(query, partition);
    for k := 0 to |polls|
      invariant server.manager.Valid() && Known(Listed(server.manager, step, varName), trusted)
      invariant bdList == []
      invariant Polled(first, polls, share, step, varName)
             == Polled(Listed(server.manager, step, varName), polls[k..], share, step, varName)
    {
      assert polls[k..][0] == polls[k] && polls[k..][1..] == polls[k + 1..];
      bdList := PollOnce(server, partition, step, varName, query, polls[k], trusted);
      if |bdList| != 0 { break; }
    }
    PolledIff(first, polls, share, step, varName);
  }

  /** One getBlockDescriptorList request. */
  method PollOnce(server: MetaServer, partition: BBX, step: nat, varName: string, query: BBX,
                  poll: Poll, ghost trusted: iset<BlockDescriptor>)
    returns (bdList: seq<BlockDescriptor>)
    requires query.Proper() && partition.Proper() && partition.dims == query.dims
    requires Meets(query, partition)
    requires server.manager.Valid() && OfDims(trusted, query.dims)
    requires Known(Listed(server.manager, step, varName), trusted)
    requires KnownRegs(poll.since, step, varName, trusted) && KnownRegs(poll.during, step, varName, trusted)
    modifies server.manager
    ensures server.manager.Valid() && Known(Listed(server.manager, step, varName), trusted)
    ensures
      var raw := old(Listed(server.manager, step, varName)) + Fresh(poll.since, step, varName);
      && Listed(server.manager, step, varName) == raw + Fresh(poll.during, step, varName)
      && (bdList != [] <==> Deemed(raw, Clip(query, partition)))
    ensures bdList != [] ==>
      var list := Listed(server.manager, step, varName); AllProper(list, query.dims) && AnswerOf(bdList, list, query)
  {
    ghost var first := Listed(server.manager, step, varName);
    ArrivedKnown(poll.since, step, varName, trusted);
    ArrivedKnown(poll.during, step, varName, trusted);
    KnownConcat(first, Fresh(poll.since, step, varName), trusted);
    ApplyArrivals(server.manager, poll.since);
    ghost var raw := Listed(server.manager, step, varName);
    KnownProper(raw, query.dims, trusted);
    KnownConcat(raw, Fresh(poll.during, step, varName), trusted);
    bdList := GetBlockDescriptorList(server.manager, partition, step, varName, query, poll.during);
    ghost var later := Listed(server.manager, step, varName);
    assert later == raw + Fresh(poll.during, step, varName);
    KnownProper(later, query.dims, trusted);
    ServerDeems(raw, later, partition, query);
    if bdList != [] { AnswerIsClips(raw, later, partition, query); }
  }

  // ------------------------------------------------------------------
  // Fetching the pieces
  // ------------------------------------------------------------------

  /** The piece is the last corner cell of the stored block alone, which the
      data server fails to extract. */
  ghost predicate CornerPiece<T(0)>(bd: BlockDescriptor, store: Store<T>)
    reads store.Values
  {
    && bd.Sized() && bd.Proper() && (bd.rawDataServerAddr, bd.rawDataID) in store
    && var o := store[(bd.rawDataServerAddr, bd.rawDataID)];
       o in store.Values && o.summary.Good() && LastCornerOnly(o.summary.Box(), bd.Box())
  }

  /** One getSubregionData call: the RPC to the data server and its copy. */
  method FetchPiece<T(0)>(bd: BlockDescriptor, query: BBX, store: Store<T>, ghost d: BlockDescriptor,
                          ghost field: Point -> T)
    returns (r: Result<MatrixView<T>>)
    requires query.Proper() && Int32Point(query.Lower()) && Int32Point(query.Upper())
    requires Trusted(d, query.dims, store, field) && Meets(d.Box(), query) && bd == Clipped(d, query)
    ensures r.Err? <==> CornerPiece(bd, store)
    ensures r.Ok? ==> GoodView(r.value, query) && bd.Sized() && r.value.bbx == bd.Box() && FieldView(r.value, field)
  {
    var bbx := bd.Box();
    var o := store[(bd.rawDataServerAddr, bd.rawDataID)];
    ClippedBox(d, query);
    ClippedCorners(d, query);
    assert o.summary.Box() == d.Box();
    var piece := o.GetDataSubregion(query.dims, bd.indexlb, bd.indexub);
    if piece.Err? { return Err(piece.error); }
    var view := MatrixView(bbx, piece.value[..]);
    forall p: Point | bbx.Has(p) ensures ValueIn(view, p) == field(p) {
      ExtractAt(d.Box(), o.rawMem[..], bbx, p);
      InsideCell(bbx, d.Box(), p);
    }
    r := Ok(view);
  }

  /** A piece fails exactly when the block it was clipped from meets the query
      in its last corner alone. */
  lemma CornerPieceIff<T(0)>(d: BlockDescriptor, query: BBX, store: Store<T>, field: Point -> T)
    requires query.Proper() && Trusted(d, query.dims, store, field) && Meets(d.Box(), query)
    ensures CornerPiece(Clipped(d, query), store) <==> CornerOnly(d, query)
  {
    var e := Clipped(d, query);
    ClippedBox(d, query);
    CornersAgree(e.Box(), Clip(d.Box(), query));
    assert store[(d.rawDataServerAddr, d.rawDataID)].summary.Box() == d.Box();
  }

  /** The loop over the descriptors of one answer. */
  method FetchPieces<T(0)>(bdList: seq<BlockDescriptor>, query: BBX, store: Store<T>, views: seq<MatrixView<T>>,
                           ghost list: seq<BlockDescriptor>, ghost trusted: iset<BlockDescriptor>,
                           ghost field: Point -> T)
    returns (r: Result<seq<MatrixView<T>>>)
    requires query.Proper() && Int32Point(query.Lower()) && Int32Point(query.Upper())
    requires HoldField(trusted, query.dims, store, field) && Known(list, trusted) && AllProper(list, query.dims)
    requires AnswerOf(bdList, list, query)
    requires FieldViews(views, query, field)
    ensures r.Err? <==> CornerListed(list, query)
    ensures r.Ok? ==> FieldViews(r.value, query, field) && ViewsGrew(views, r.value, list, query)
  {
    var pieces := views;
    for i := 0 to |bdList|
      invariant FieldViews(pieces, query, field)
      invariant ShowsPrefix(bdList, i, views, pieces)
      invariant forall k :: 0 <= k < i ==> !CornerPiece(bdList[k], store)
    {
      assert bdList[i] in bdList;
      var piece := FetchListed(bdList[i], query, store, list, trusted, field);
      if piece.Err? { return Err(piece.error); }
      PieceAdded(bdList, i, views, pieces, piece.value, query, field);
      pieces := pieces + [piece.value];
    }
    NoCornerListed(bdList, list, query, store, trusted, field);
    PiecesShowList(bdList, list, query, views, pieces);
    r := Ok(pieces);
  }

  /** One descriptor of the loop: a clip of some listed block. */
  method FetchListed<T(0)>(bd: BlockDescriptor, query: BBX, store: Store<T>, ghost list: seq<BlockDescriptor>,
                           ghost trusted: iset<BlockDescriptor>, ghost field: Point -> T)
    returns (r: Result<MatrixView<T>>)
    requires query.Proper() && Int32Point(query.Lower()) && Int32Point(query.Upper())
    requires HoldField(trusted, query.dims, store, field) && Known(list, trusted) && AllProper(list, query.dims)
    requires exists j :: 0 <= j < |list| && Meets(list[j].Box(), query) && bd == Clipped(list[j], query)
    ensures r.Err? <==> CornerPiece(bd, store)
    ensures r.Err? ==> CornerListed(list, query)
    ensures r.Ok? ==> GoodView(r.value, query) && bd.Sized() && r.value.bbx == bd.Box() && FieldView(r.value, field)
  {
    ghost var j :| 0 <= j < |list| && Meets(list[j].Box(), query) && bd == Clipped(list[j], query);
    assert list[j] in trusted;
    CornerPieceIff(list[j], query, store, field);
    r := FetchPiece(bd, query, store, list[j], field);
  }

  lemma NoCornerListed<T(0)>(bdList: seq<BlockDescriptor>, list: seq<BlockDescriptor>, query: BBX, store: Store<T>,
                             trusted: iset<BlockDescriptor>, field: Point -> T)
    requires query.Proper() && HoldField(trusted, query.dims, store, field) && Known(list, trusted)
    requires AllProper(list, query.dims)
    requires AnswerOf(bdList, list, query) && forall k :: 0 <= k < |bdList| ==> !CornerPiece(bdList[k], store)
    ensures !CornerListed(list, query)
  {
    forall j | 0 <= j < |list| ensures !CornerOnly(list[j], query) {
      if Meets(list[j].Box(), query) {
        assert list[j] in trusted;
        CornerPieceIff(list[j], query, store, field);
        var k :| 0 <= k < |bdList| && bdList[k] == Clipped(list[j], query);
      }
    }
  }

  // ------------------------------------------------------------------
  // getArbitraryData
  // ------------------------------------------------------------------

  /** The reader. What it does is decided by what each server of its list comes
      to answer: it fails at the first that lists a block meeting the query in its
      last corner alone, waits for the first whose share no request finds covered,
      and is done otherwise. A matrix it returns holds the field at every cell that
      some server of the list shows, and what the fresh buffer held elsewhere;
      with two or three axes and no address missing, the field everywhere. */
  method GetArbitraryData<T(0)>(dht: DHTManager, servers: map<string, MetaServer>, store: Store<T>,
                                step: nat, varName: string, dims: nat, indexlb: Point, indexub: Point,
                                polls: seq<seq<Poll>>,
                                ghost lens: seq<int>, ghost parts: seq<int>, ghost trusted: iset<BlockDescriptor>,
                                ghost field: Point -> T)
    returns (r: Outcome<T>, ghost init: seq<T>, ghost answers: seq<Seen>)
    requires Placed(dht, lens, parts, servers)
    requires 1 <= dims <= 3 && dims == |lens|
    requires MakeBBX(dims, indexlb, indexub).Proper() && Inside(MakeBBX(dims, indexlb, indexub), Domain(lens))
    requires Int32Point(MakeBBX(dims, indexlb, indexub).Lower()) && Int32Point(MakeBBX(dims, indexlb, indexub).Upper())
    requires HoldField(trusted, dims, store, field) && Healthy(servers, step, varName, trusted)
    requires |polls| == |dht.boxes| && KnownPolls(polls, step, varName, trusted)
    modifies set a | a in servers :: servers[a].manager
    ensures Healthy(servers, step, varName, trusted)
    ensures |Shares(dht, MakeBBX(dims, indexlb, indexub))| <= |polls|
    ensures
      var query := MakeBBX(dims, indexlb, indexub);
      answers == Answers(old(Lists(servers, MetaList(dht, query), step, varName)), polls, Shares(dht, query), step,
                         varName)
    ensures ReadSpec(r, if r.Done? then r.matrix[..] else [], init, MakeBBX(dims, indexlb, indexub), answers, field)
    ensures
      var query := MakeBBX(dims, indexlb, indexub);
      LeftLists(old(Lists(servers, MetaList(dht, query), step, varName)),
                Lists(servers, MetaList(dht, query), step, varName), answers, query)
    ensures forall a :: a in servers && a !in MetaList(dht, MakeBBX(dims, indexlb, indexub)) ==>
      Listed(servers[a].manager, step, varName) == old(Listed(servers[a].manager, step, varName))
    ensures r.Done? && dims >= 2 && AllServed(dht, MakeBBX(dims, indexlb, indexub)) ==>
      FieldAt(r.matrix[..], MakeBBX(dims, indexlb, indexub), field)
  {
    ghost var before, after;
    r, init, answers, before, after := ReadQuery(dht, servers, store, step, varName, MakeBBX(dims, indexlb, indexub),
                                                 polls, lens, parts, trusted, field);
  }

  /** The same for a query box. */
  method ReadQuery<T(0)>(dht: DHTManager, servers: map<string, MetaServer>, store: Store<T>, step: nat, varName: string,
                         query: BBX, polls: seq<seq<Poll>>,
                         ghost lens: seq<int>, ghost parts: seq<int>, ghost trusted: iset<BlockDescriptor>,
                         ghost field: Point -> T)
    returns (r: Outcome<T>, ghost init: seq<T>, ghost answers: seq<Seen>,
             ghost before: seq<seq<BlockDescriptor>>, ghost after: seq<seq<BlockDescriptor>>)
    requires Placed(dht, lens, parts, servers)
    requires query.Proper() && query.dims == |lens| && Inside(query, Domain(lens))
    requires Int32Point(query.Lower()) && Int32Point(query.Upper())
    requires HoldField(trusted, query.dims, store, field) && Healthy(servers, step, varName, trusted)
    requires |polls| == |dht.boxes| && KnownPolls(polls, step, varName, trusted)
    modifies set a | a in servers :: servers[a].manager
    ensures Healthy(servers, step, varName, trusted)
    ensures |Shares(dht, query)| <= |polls|
    ensures before == old(Lists(servers, MetaList(dht, query), step, varName))
    ensures after == Lists(servers, MetaList(dht, query), step, varName)
    ensures answers == Answers(before, polls, Shares(dht, query), step, varName)
    ensures ReadSpec(r, if r.Done? then r.matrix[..] else [], init, query, answers, field)
    ensures LeftLists(before, after, answers, query)
    ensures forall a :: a in servers && a !in MetaList(dht, query) ==>
      Listed(servers[a].manager, step, varName) == old(Listed(servers[a].manager, step, varName))
    ensures r.Done? && query.dims >= 2 && AllServed(dht, query) ==> FieldAt(r.matrix[..], query, field)
  {
    var part;
    part, answers, before, after := ReadViews(dht, servers, store, step, varName, query, polls, lens, parts, trusted,
                                              field);
    r, init := Finish(part, query, answers, field);
    SharesShow(dht, lens, parts, servers, query, answers);
    if r.Done? && query.dims >= 2 {
      SharesGiveField(r.matrix[..], init, query, answers, Shares(dht, query), field);
    }
  }

  /** Ask for the list of metadata servers and read each of them. */
  method ReadViews<T(0)>(dht: DHTManager, servers: map<string, MetaServer>, store: Store<T>, step: nat, varName: string,
                         query: BBX, polls: seq<seq<Poll>>,
                         ghost lens: seq<int>, ghost parts: seq<int>, ghost trusted: iset<BlockDescriptor>,
                         ghost field: Point -> T)
    returns (r: Result<Option<seq<MatrixView<T>>>>, ghost answers: seq<Seen>,
             ghost before: seq<seq<BlockDescriptor>>, ghost after: seq<seq<BlockDescriptor>>)
    requires Placed(dht, lens, parts, servers)
    requires query.Proper() && query.dims == |lens| && Inside(query, Domain(lens))
    requires Int32Point(query.Lower()) && Int32Point(query.Upper())
    requires HoldField(trusted, query.dims, store, field) && Healthy(servers, step, varName, trusted)
    requires |polls| == |dht.boxes| && KnownPolls(polls, step, varName, trusted)
    modifies set a | a in servers :: servers[a].manager
    ensures Healthy(servers, step, varName, trusted)
    ensures |Shares(dht, query)| <= |polls|
    ensures before == old(Lists(servers, MetaList(dht, query), step, varName))
    ensures after == Lists(servers, MetaList(dht, query), step, varName)
    ensures answers == Answers(before, polls, Shares(dht, query), step, varName)
    ensures AllRead(r, query, answers, field)
    ensures LeftLists(before, after, answers, query)
    ensures forall a :: a in servers && a !in MetaList(dht, query) ==>
      Listed(servers[a].manager, step, varName) == old(Listed(servers[a].manager, step, varName))
  {
    var metaList := AskServers(dht, servers, query, lens, parts);
    before := Lists(servers, metaList, step, varName);
    answers := Answers(before, polls, Shares(dht, query), step, varName);
    r, after := ReadServers(servers, dht.metaServerIDToBBX, metaList, step, varName, query, polls, store,
                            Shares(dht, query), before, answers, trusted, field);
    ListsUnique(servers, metaList, step, varName, after);
  }

  /** The list of metadata servers for an in-domain query. */
  method AskServers(dht: DHTManager, servers: map<string, MetaServer>, query: BBX, ghost lens: seq<int>,
                    ghost parts: seq<int>)
    returns (metaList: seq<string>)
    requires Placed(dht, lens, parts, servers)
    requires query.Proper() && query.dims == |lens| && Inside(query, Domain(lens))
    ensures metaList == MetaList(dht, query) && |metaList| <= |dht.boxes|
    ensures Reaches(servers, dht.metaServerIDToBBX, metaList, query, Shares(dht, query))
  {
    SharesCoverIff(dht, lens, parts, servers, query);
    ListReaches(dht, lens, parts, servers, query);
    metaList := GetMetaServerList(dht, query);
  }

  /** The end of the call: pass a failure on or assemble what was gathered. */
  method Finish<T(0)>(part: Result<Option<seq<MatrixView<T>>>>, query: BBX, ghost answers: seq<Seen>,
                      ghost field: Point -> T)
    returns (r: Outcome<T>, ghost init: seq<T>)
    requires query.Proper() && AllRead(part, query, answers, field)
    ensures r.Done? ==> fresh(r.matrix)
    ensures ReadSpec(r, if r.Done? then r.matrix[..] else [], init, query, answers, field)
  {
    init := [];
    OneFate(answers, query);
    if part.Err? { return Failed(part.error), []; }
    if part.value.None? { return Waiting, []; }
    var out;
    out, init := MatrixAssemble(part.value.value, query);
    AssembledIsField(part.value.value, query, init, out[..], answers, field);
    r := Done(out);
  }

  /** A server that answered took its share for covered. */
  lemma SharesShow(dht: DHTManager, lens: seq<int>, parts: seq<int>, servers: map<string, MetaServer>, query: BBX,
                   answers: seq<Seen>)
    requires Placed(dht, lens, parts, servers)
    requires query.Proper() && query.dims == |lens| && Inside(query, Domain(lens))
    requires |answers| == |Shares(dht, query)|
    requires forall i {:trigger answers[i]} :: 0 <= i < |answers| ==>
      (answers[i].answered ==> Ready(answers[i].list, Shares(dht, query)[i].bbx))
    ensures forall i {:trigger Shares(dht, query)[i]} :: 0 <= i < |answers| ==>
      var share := Shares(dht, query)[i].bbx;
      share.Valid() && share.dims == query.dims && (answers[i].answered ==> Ready(answers[i].list, share))
    ensures (forall p: Point :: query.Has(p) ==> InShares(Shares(dht, query), p)) <==> AllServed(dht, query)
  {
    SharesCoverIff(dht, lens, parts, servers, query);
    forall i | 0 <= i < |answers|
      ensures Shares(dht, query)[i].bbx.Valid() && Shares(dht, query)[i].bbx.dims == query.dims
    {
      assert ShareOf(dht, query, Shares(dht, query)[i]);
    }
  }

  lemma ListReaches(dht: DHTManager, lens: seq<int>, parts: seq<int>, servers: map<string, MetaServer>, query: BBX)
    requires Placed(dht, lens, parts, servers)
    requires query.Proper() && query.dims == |lens| && Inside(query, Domain(lens))
    ensures Reaches(servers, dht.metaServerIDToBBX, MetaList(dht, query), query, Shares(dht, query))
  {
    SharesCoverIff(dht, lens, parts, servers, query);
    ListDistinct(dht, lens, parts, servers, query);
    var shares, metaList := Shares(dht, query), MetaList(dht, query);
    forall i | 0 <= i < |metaList|
      ensures metaList[i] in servers && servers[metaList[i]].rank == shares[i].metaServerID
      ensures shares[i].metaServerID in dht.metaServerIDToBBX && dht.metaServerIDToBBX[shares[i].metaServerID].Valid()
      ensures ShareShaped(query, dht.metaServerIDToBBX[shares[i].metaServerID], shares[i].bbx)
    {
      assert ShareOf(dht, query, shares[i]);
      assert dht.metaServerIDToBBX[shares[i].metaServerID] == dht.boxes[shares[i].metaServerID];
    }
  }

  /** The loop over the metadata servers of the list. */
  method ReadServers<T(0)>(servers: map<string, MetaServer>, boxes: map<int, BBX>, metaList: seq<string>, step: nat,
                           varName: string, query: BBX, polls: seq<seq<Poll>>, store: Store<T>,
                           ghost shares: seq<ResponsibleMetaServer>, ghost before: seq<seq<BlockDescriptor>>,
                           ghost answers: seq<Seen>, ghost trusted: iset<BlockDescriptor>, ghost field: Point -> T)
    returns (r: Result<Option<seq<MatrixView<T>>>>, ghost after: seq<seq<BlockDescriptor>>)
    requires query.Proper() && Int32Point(query.Lower()) && Int32Point(query.Upper())
    requires Reaches(servers, boxes, metaList, query, shares)
    requires HoldField(trusted, query.dims, store, field) && Healthy(servers, step, varName, trusted)
    requires |metaList| <= |polls| && KnownPolls(polls, step, varName, trusted)
    requires ListsAre(servers, metaList, step, varName, before)
    requires answers == Answers(before, polls, shares, step, varName)
    modifies set a | a in servers :: servers[a].manager
    ensures Healthy(servers, step, varName, trusted)
    ensures AllRead(r, query, answers, field)
    ensures ListsAre(servers, metaList, step, varName, after) && LeftLists(before, after, answers, query)
    ensures forall a :: a in servers && a !in metaList ==>
      Listed(servers[a].manager, step, varName) == old(Listed(servers[a].manager, step, varName))
  {
    var views: seq<MatrixView<T>> := [];
    after := before;
    for i := 0 to |metaList|
      invariant Healthy(servers, step, varName, trusted)
      invariant forall a :: a in servers && a !in metaList ==>
        Listed(servers[a].manager, step, varName) == old(Listed(servers[a].manager, step, varName))
      invariant Gathered(views, query, answers, i, field)
      invariant ListsAre(servers, metaList, step, varName, after) && Advanced(before, after, answers, i)
    {
      r, after := ReadNth(servers, boxes, metaList, i, step, varName, query, polls, store, views, shares, before, after,
                          answers, trusted, field);
      if r.Err? || r.value.None? { return; }
      views := r.value.value;
    }
    r := Ok(Some(views));
    StopsAt(before, after, answers, |metaList|, query);
  }

  /** One server of the list. */
  method ReadNth<T(0)>(servers: map<string, MetaServer>, boxes: map<int, BBX>, metaList: seq<string>, i: nat, step: nat,
                       varName: string, query: BBX, polls: seq<seq<Poll>>, store: Store<T>,
                       views: seq<MatrixView<T>>, ghost shares: seq<ResponsibleMetaServer>,
                       ghost before: seq<seq<BlockDescriptor>>, ghost now: seq<seq<BlockDescriptor>>,
                       ghost answers: seq<Seen>, ghost trusted: iset<BlockDescriptor>, ghost field: Point -> T)
    returns (r: Result<Option<seq<MatrixView<T>>>>, ghost later: seq<seq<BlockDescriptor>>)
    requires query.Proper() && Int32Point(query.Lower()) && Int32Point(query.Upper())
    requires Reaches(servers, boxes, metaList, query, shares) && i < |metaList| == |before| <= |polls|
    requires HoldField(trusted, query.dims, store, field) && Healthy(servers, step, varName, trusted)
    requires KnownSchedule(polls[i], step, varName, trusted)
    requires answers == Answers(before, polls, shares, step, varName) && Gathered(views, query, answers, i, field)
    requires ListsAre(servers, metaList, step, varName, now) && Advanced(before, now, answers, i)
    modifies set a | a in servers :: servers[a].manager
    ensures Healthy(servers, step, varName, trusted)
    ensures forall a :: a in servers && a !in metaList ==>
      Listed(servers[a].manager, step, varName) == old(Listed(servers[a].manager, step, varName))
    ensures ListsAre(servers, metaList, step, varName, later)
    ensures r.Err? || r.value.None? ==> AllRead(r, query, answers, field) && LeftLists(before, later, answers, query)
    ensures r.Ok? && r.value.Some? ==>
      Gathered(r.value.value, query, answers, i + 1, field) && Advanced(before, later, answers, i + 1)
  {
    assert answers[i] == Polled(before[i], polls[i], shares[i].bbx, step, varName) && now[i] == before[i];
    r := ReadIth(servers, boxes, metaList, i, step, varName, query, polls[i], store, views, shares, now, trusted,
                 field);
    later := now[i := answers[i].list];
    AdvancedNext(before, now, later, answers, i);
    GatheredNext(r, views, query, answers, i, field);
    if r.Err? || r.value.None? { StopsAt(before, later, answers, i, query); }
  }

  /** The same, as a change of the lists. */
  method ReadIth<T(0)>(servers: map<string, MetaServer>, boxes: map<int, BBX>, metaList: seq<string>, i: nat, step: nat,
                       varName: string, query: BBX, polls: seq<Poll>, store: Store<T>, views: seq<MatrixView<T>>,
                       ghost shares: seq<ResponsibleMetaServer>, ghost now: seq<seq<BlockDescriptor>>,
                       ghost trusted: iset<BlockDescriptor>, ghost field: Point -> T)
    returns (r: Result<Option<seq<MatrixView<T>>>>)
    requires query.Proper() && Int32Point(query.Lower()) && Int32Point(query.Upper())
    requires Reaches(servers, boxes, metaList, query, shares) && i < |metaList|
    requires HoldField(trusted, query.dims, store, field) && Healthy(servers, step, varName, trusted)
    requires KnownSchedule(polls, step, varName, trusted) && FieldViews(views, query, field)
    requires ListsAre(servers, metaList, step, varName, now)
    modifies servers[metaList[i]].manager
    ensures Healthy(servers, step, varName, trusted)
    ensures forall a :: a in servers && a != metaList[i] ==>
      Listed(servers[a].manager, step, varName) == old(Listed(servers[a].manager, step, varName))
    ensures
      var seen := Polled(now[i], polls, shares[i].bbx, step, varName);
      ListsAre(servers, metaList, step, varName, now[i := seen.list]) && OneRead(r, views, query, seen, field)
  {
    var partition := boxes[servers[metaList[i]].rank];
    r := ReadNext(servers, metaList[i], partition, step, varName, query, polls, store, views, trusted, field);
    forall k | 0 <= k < |metaList| && k != i ensures Listed(servers[metaList[k]].manager, step, varName) == now[k] {
      assert metaList[k] != metaList[i];
    }
  }

  /** One server of the list, seen from the whole system. */
  method ReadNext<T(0)>(servers: map<string, MetaServer>, addr: string, partition: BBX, step: nat, varName: string,
                        query: BBX, polls: seq<Poll>, store: Store<T>, views: seq<MatrixView<T>>,
                        ghost trusted: iset<BlockDescriptor>, ghost field: Point -> T)
    returns (r: Result<Option<seq<MatrixView<T>>>>)
    requires query.Proper() && partition.Proper() && partition.dims == query.dims
    requires Int32Point(query.Lower()) && Int32Point(query.Upper())
    requires Meets(query, partition) && FieldViews(views, query, field)
    requires addr in servers && OwnManagers(servers)
    requires HoldField(trusted, query.dims, store, field) && Healthy(servers, step, varName, trusted)
    requires KnownSchedule(polls, step, varName, trusted)
    modifies servers[addr].manager
    ensures Healthy(servers, step, varName, trusted)
    ensures forall a :: a in servers && a != addr ==>
      Listed(servers[a].manager, step, varName) == old(Listed(servers[a].manager, step, varName))
    ensures
      var seen := Polled(old(Listed(servers[addr].manager, step, varName)), polls, Clip(query, partition), step,
                         varName);
      Listed(servers[addr].manager, step, varName) == seen.list && OneRead(r, views, query, seen, field)
  {
    r := ReadServer(servers[addr], partition, step, varName, query, polls, store, views, trusted, field);
  }

  /** The body of the loop over servers: poll one, then fetch its pieces. */
  method ReadServer<T(0)>(server: MetaServer, partition: BBX, step: nat, varName: string, query: BBX,
                          polls: seq<Poll>, store: Store<T>, views: seq<MatrixView<T>>,
                          ghost trusted: iset<BlockDescriptor>, ghost field: Point -> T)
    returns (r: Result<Option<seq<MatrixView<T>>>>)
    requires query.Proper() && partition.Proper() && partition.dims == query.dims
    requires Int32Point(query.Lower()) && Int32Point(query.Upper())
    requires Meets(query, partition) && FieldViews(views, query, field)
    requires HoldField(trusted, query.dims, store, field)
    requires server.manager.Valid() && Known(Listed(server.manager, step, varName), trusted)
    requires KnownSchedule(polls, step, varName, trusted)
    modifies server.manager
    ensures server.manager.Valid() && Known(Listed(server.manager, step, varName), trusted)
    ensures
      var seen := Polled(old(Listed(server.manager, step, varName)), polls, Clip(query, partition), step, varName);
      Listed(server.manager, step, varName) == seen.list && OneRead(r, views, query, seen, field)
  {
    var bdList := PollServer(server, partition, step, varName, query, polls, trusted);
    if |bdList| == 0 { return Ok(None); }
    var pieces := FetchPieces(bdList, query, store, views, Listed(server.manager, step, varName), trusted, field);
    if pieces.Err? { return Err(pieces.error); }
    r := Ok(Some(pieces.value));
  }

  lemma PartitionsValid(lens: seq<int>, parts: seq<int>)
    requires Layout(lens, parts) && |lens| >= 1
    ensures forall i {:trigger Partitions(lens, parts)[i]} :: 0 <= i < |Partitions(lens, parts)| ==>
      Partitions(lens, parts)[i].Valid() && Partitions(lens, parts)[i].dims == |lens|
      && |Partitions(lens, parts)[i].bounds| == |lens|
  {
  }

  lemma {:induction false} AskedAtMost(boxes: seq<BBX>, n: nat, query: BBX)
    requires n <= |boxes| && query.Valid()
    requires forall i {:trigger boxes[i]} :: 0 <= i < |boxes| ==>
      |boxes[i].bounds| == boxes[i].dims && boxes[i].Valid() && boxes[i].dims == query.dims
    ensures Responsible(boxes, n, query).Ok? && |Responsible(boxes, n, query).value| <= n
  {
    if n > 0 { AskedAtMost(boxes, n - 1, query); }
  }

  // ------------------------------------------------------------------
  // Registration at put time
  // ------------------------------------------------------------------

  /** The registration loop of a put: the descriptor goes once to every server
      the client was told of and to no other server at all; a put that was told
      of none is an error. */
  method RegisterBlock(dht: DHTManager, servers: map<string, MetaServer>, step: nat, varName: string,
                       d: BlockDescriptor, ghost lens: seq<int>, ghost parts: seq<int>)
    returns (r: Result<()>)
    requires Placed(dht, lens, parts, servers)
    requires d.Sized() && d.Proper() && d.dims == |lens| && Inside(d.Box(), Domain(lens))
    requires forall a :: a in servers ==> servers[a].manager.Valid()
    modifies set a | a in servers :: servers[a].manager
    ensures forall a :: a in servers ==> servers[a].manager.Valid()
    ensures r == if MetaList(dht, d.Box()) == [] then Err(NoMetaServer) else Ok(())
    ensures forall a :: a in servers ==>
      var m := servers[a].manager;
      if a in MetaList(dht, d.Box()) then Grown(old(m.metaDataMap), m.metaDataMap, [Registration(step, varName, d)])
      else m.metaDataMap == old(m.metaDataMap)
  {
    var metaList := GetMetaServerList(dht, d.Box());
    if |metaList| == 0 { return Err(NoMetaServer); }
    ListDistinct(dht, lens, parts, servers, d.Box());
    RegisterAt(servers, metaList, step, varName, d);
    r := Ok(());
  }

  /** The addresses of a list are servers, each named once. */
  lemma ListDistinct(dht: DHTManager, lens: seq<int>, parts: seq<int>, servers: map<string, MetaServer>, query: BBX)
    requires Placed(dht, lens, parts, servers)
    requires query.Proper() && query.dims == |lens| && Inside(query, Domain(lens))
    ensures var metaList := MetaList(dht, query);
      && (forall i :: 0 <= i < |metaList| ==> metaList[i] in servers)
      && (forall i, j :: 0 <= i < j < |metaList| ==> metaList[i] != metaList[j])
  {
    SharesCoverIff(dht, lens, parts, servers, query);
    MetaServersTileQuery(lens, parts, query);
    var shares, metaList := Shares(dht, query), MetaList(dht, query);
    forall i | 0 <= i < |metaList|
      ensures metaList[i] in servers && servers[metaList[i]].rank == shares[i].metaServerID
    {
      assert ShareOf(dht, query, shares[i]);
    }
  }

  /** A server is on the list of a block exactly when it is the server of a
      partition that meets the block, provided no address is missing. */
  lemma ListIsMeeting(dht: DHTManager, lens: seq<int>, parts: seq<int>, servers: map<string, MetaServer>, box: BBX,
                      id: int)
    requires Placed(dht, lens, parts, servers)
    requires box.Proper() && box.dims == |lens| && Inside(box, Domain(lens)) && AllServed(dht, box)
    requires 0 <= id < |dht.boxes| && id in dht.metaServerIDToAddr
    ensures dht.boxes[id].Valid() && dht.boxes[id].dims == box.dims
    ensures dht.metaServerIDToAddr[id] in MetaList(dht, box) <==> Meets(box, dht.boxes[id])
  {
    PartitionsValid(lens, parts);
    SharesCoverIff(dht, lens, parts, servers, box);
    ResponsibleMembers(dht.boxes, |dht.boxes|, box);
    var list := Responsible(dht.boxes, |dht.boxes|, box).value;
    ServedIff(list, dht.metaServerIDToAddr);
    AllServedIff(dht, box, list);
    var shares, metaList := Shares(dht, box), MetaList(dht, box);
    if Meets(box, dht.boxes[id]) {
      var e := ResponsibleMetaServer(id, Clip(box, dht.boxes[id]));
      assert e in list;
      var i :| 0 <= i < |list| && list[i] == e;
      assert metaList[i] == dht.metaServerIDToAddr[id];
    }
    if i :| 0 <= i < |metaList| && metaList[i] == dht.metaServerIDToAddr[id] {
      assert ShareOf(dht, box, shares[i]);
      assert servers[metaList[i]].rank == shares[i].metaServerID == id;
    }
  }

  /** putmetadata at each address of the list. */
  method RegisterAt(servers: map<string, MetaServer>, metaList: seq<string>, step: nat, varName: string,
                    d: BlockDescriptor)
    requires OwnManagers(servers) && d.Sized()
    requires forall i :: 0 <= i < |metaList| ==> metaList[i] in servers
    requires forall i, j :: 0 <= i < j < |metaList| ==> metaList[i] != metaList[j]
    requires forall a :: a in servers ==> servers[a].manager.Valid()
    modifies set a | a in servers :: servers[a].manager
    ensures forall a :: a in servers ==> servers[a].manager.Valid()
    ensures forall a :: a in servers ==>
      var m := servers[a].manager;
      if a in metaList then Grown(old(m.metaDataMap), m.metaDataMap, [Registration(step, varName, d)])
      else m.metaDataMap == old(m.metaDataMap)
  {
    ghost var reg := Registration(step, varName, d);
    for i := 0 to |metaList|
      invariant forall a :: a in servers ==> servers[a].manager.Valid()
      invariant forall a :: a in servers ==>
        var m := servers[a].manager;
        if a in metaList[..i] then Grown(old(m.metaDataMap), m.metaDataMap, [reg])
        else m.metaDataMap == old(m.metaDataMap)
    {
      assert metaList[i] !in metaList[..i];
      assert metaList[..i + 1] == metaList[..i] + [metaList[i]];
      servers[metaList[i]].manager.UpdateMetaData(step, varName, d);
    }
    assert metaList[..|metaList|] == metaList;
  }

  /** The list has every put that was sent to the address. */
  ghost predicate HoldsTold(dht: DHTManager, puts: seq<BlockDescriptor>, a: string, list: seq<BlockDescriptor>)
    requires dht.Valid() && AllSized(puts)
    reads dht
  {
    forall k {:trigger puts[k]} :: 0 <= k < |puts| && a in MetaList(dht, puts[k].Box()) ==> puts[k] in list
  }

  /** Blocks of the domain that cover the query make a server that the reader is
      told of ready, as soon as its list has those of them that were sent to it. */
  lemma RegisteredMeansReady(dht: DHTManager, lens: seq<int>, parts: seq<int>, servers: map<string, MetaServer>,
                             puts: seq<BlockDescriptor>, query: BBX, i: nat, list: seq<BlockDescriptor>)
    requires Placed(dht, lens, parts, servers)
    requires query.Proper() && query.dims == |lens| && Inside(query, Domain(lens))
    requires AllSized(puts) && AllProper(puts, |lens|) && Covered(query, puts)
    requires forall k {:trigger puts[k]} :: 0 <= k < |puts| ==>
      Inside(puts[k].Box(), Domain(lens)) && AllServed(dht, puts[k].Box())
    requires i < |Shares(dht, query)| && HoldsTold(dht, puts, MetaList(dht, query)[i], list)
    ensures Ready(list, Shares(dht, query)[i].bbx)
  {
    SharesCoverIff(dht, lens, parts, servers, query);
    var e := Shares(dht, query)[i];
    assert ShareOf(dht, query, e);
    var part := dht.boxes[e.metaServerID];
    OverlapIsIntersection(query, part);
    forall p: Point | e.bbx.Has(p) ensures ListShows(list, e.bbx, p) {
      assert InBlocks(p, puts, query.dims);
      var k :| 0 <= k < |puts| && puts[k].Box().Has(p);
      OverlapIsIntersection(puts[k].Box(), part);
      ListIsMeeting(dht, lens, parts, servers, puts[k].Box(), e.metaServerID);
      assert MetaList(dht, query)[i] == dht.metaServerIDToAddr[e.metaServerID];
      assert puts[k] in list;
      var j :| 0 <= j < |list| && list[j] == puts[k];
      assert BlockShows(list[j], e.bbx, p);
    }
    ShownIsDeemed(list, e.bbx);
  }
}
