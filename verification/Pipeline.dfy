/** From the distributed simulation through the staging servers to a reader:
    the put blocks satisfy the hypotheses under which the reader's matrix is
    the global field. */
module Pipeline {
  import opened Boxes
  import opened Descriptors
  import opened Coverage
  import opened Dht
  import opened Matrix
  import opened Metadata
  import opened Reader
  import opened Staging
  import opened Get
  import D = Decomposition
  import Halo
  import Runs = HaloRuns
  import L = Lockstep
  import G = GrayScott

  /** The descriptor names the box of rank q and lives in memory. */
  predicate Describes(d: BlockDescriptor, g: D.ProcGrid, q: Point)
    requires g.Good()
  {
    d.dims == 3 && d.backend == Mem && d.indexlb == g.Block(q).Lower() && d.indexub == g.Block(q).Upper()
  }

  lemma DescribedBox(d: BlockDescriptor, g: D.ProcGrid, q: Point)
    requires g.Good() && g.IsRank(q) && Describes(d, g, q)
    ensures d.Sized() && d.Proper()
    ensures forall p: Point :: d.Box().Has(p) <==> g.Block(q).Has(p)
    ensures forall p: Point :: d.Box().Index(p) == g.Block(q).Index(p)
  {
    D.RankFacts(g, q);
    var a, b := d.Box(), g.Block(q);
    assert forall i: nat :: i < 3 ==> a.Lo(i) == b.Lo(i) && a.Hi(i) == b.Hi(i);
    assert a.Ext(0) == b.Ext(0) && a.Ext(1) == b.Ext(1);
  }

  /** The object holds what the rank put: its local array without ghosts. */
  ghost predicate HoldsPut<T(0)>(o: RawMemObj<T>, d: BlockDescriptor, s: Point, data: seq<T>)
    reads o, o.rawMem
  {
    && o.Valid() && o.rawMem != null
    && o.summary.dims == d.dims && o.summary.indexlb == d.indexlb && o.summary.indexub == d.indexub
    && D.Positive3(s) && |data| == D.Cells(s)
    && G.InnerBox(s).Proper() && D.LocalBox(s).Proper() && Inside(G.InnerBox(s), D.LocalBox(s))
    && o.rawMem[..] == Extract(D.LocalBox(s), data, G.InnerBox(s))
  }

  /** A rank's put: the ghost-free copy of its local array goes into a new object
      of the data server. */
  method StorePut<T(0)>(sim: G.Simulation<T>, d: BlockDescriptor, zero: T) returns (o: RawMemObj<T>)
    requires sim.Valid() && Describes(d, sim.grid, sim.coords) && Clamp(3, d.indexlb) == d.indexlb
    requires Int32Point(d.indexlb) && Int32Point(d.indexub)
    ensures fresh(o) && fresh(o.rawMem) && HoldsPut(o, d, sim.grid.Size(sim.coords), sim.u[..])
  {
    var s := sim.size;
    G.InnerFacts(s);
    var data := new T[s.x * s.y * s.z](_ => zero);
    sim.DataNoGhost(sim.u, data);
    DescribedBox(d, sim.grid, sim.coords);
    o := new RawMemObj(BlockSummary(d.rawDataID, d.dims, d.indexlb, d.indexub, s.x * s.y * s.z));
    var r := o.PutData(data[..]);
  }

  /** Whatever the interleaving of the ranks was, the block a rank put after t
      iterations is one the reader may trust for the global field after t
      steps. */
  lemma PutIsTrusted<T(0)>(g: D.ProcGrid, init: Point -> Halo.Fields<T>, kernel: Halo.Kernel<T>, noise: Halo.Noise<T>,
                           f: Runs.GlobalField<T>, limit: nat, run: seq<L.System<Point, Halo.Fields<T>, seq<T>>>,
                           i: nat, q: Point, t: nat, d: BlockDescriptor, store: Store<T>)
    requires g.Good() && Runs.Starts(g, init, f) && L.Run(Halo.HaloProgram(g, init, kernel, noise), limit, run)
    requires i < |run|
    requires g.IsRank(q) && q in run[i].node && run[i].node[q].pc == 12 * t
    requires Describes(d, g, q) && (d.rawDataServerAddr, d.rawDataID) in store
    requires HoldsPut(store[(d.rawDataServerAddr, d.rawDataID)], d, g.Size(q), run[i].node[q].data.u)
    ensures Trusted(d, 3, store, Runs.GlobalAfter(g, kernel, noise, f, t).u)
  {
    var o := store[(d.rawDataServerAddr, d.rawDataID)];
    var field := Runs.GlobalAfter(g, kernel, noise, f, t).u;
    assert o in store.Values;
    DescribedBox(d, g, q);
    forall p: Point | d.Box().Has(p)
      ensures 0 <= d.Box().Index(p) < o.rawMem.Length && o.rawMem[d.Box().Index(p)] == field(p)
    {
      G.EveryPutIsGlobal(g, init, kernel, noise, f, limit, run, i, q, t, p);
      assert o.rawMem[g.Block(q).Index(p)] == o.rawMem[..][g.Block(q).Index(p)];
    }
  }

  /** The puts are the ranks' blocks, one or more for each rank. */
  ghost predicate AllPut(g: D.ProcGrid, puts: seq<BlockDescriptor>)
    requires g.Good()
  {
    && (forall k {:trigger puts[k]} :: 0 <= k < |puts| ==>
         puts[k].dataType == DATATYPE_CARGRID && FromSomeRank(g, puts[k]))
    && (forall q: Point {:trigger g.IsRank(q)} :: g.IsRank(q) ==> FromRank(g, puts, q))
  }

  ghost predicate FromSomeRank(g: D.ProcGrid, d: BlockDescriptor)
    requires g.Good()
  {
    exists q: Point :: g.IsRank(q) && Describes(d, g, q)
  }

  ghost predicate FromRank(g: D.ProcGrid, puts: seq<BlockDescriptor>, q: Point)
    requires g.Good()
  {
    exists k :: 0 <= k < |puts| && Describes(puts[k], g, q)
  }

  /** The simulated cube as the domain of the DHT. */
  function Cube(g: D.ProcGrid): seq<int> { [g.len, g.len, g.len] }

  lemma PutsInside(g: D.ProcGrid, puts: seq<BlockDescriptor>)
    requires g.Good() && AllPut(g, puts)
    ensures AllSized(puts) && AllProper(puts, 3)
    ensures forall k {:trigger puts[k]} :: 0 <= k < |puts| ==> Inside(puts[k].Box(), Domain(Cube(g)))
  {
    forall k | 0 <= k < |puts|
      ensures puts[k].Sized() && puts[k].Proper() && puts[k].dims == 3 && Inside(puts[k].Box(), Domain(Cube(g)))
    {
      RankBoxInside(g, puts[k]);
    }
  }

  lemma RankBoxInside(g: D.ProcGrid, d: BlockDescriptor)
    requires g.Good() && FromSomeRank(g, d)
    ensures d.Sized() && d.Proper() && d.dims == 3 && Inside(d.Box(), Domain(Cube(g)))
  {
    var q: Point :| g.IsRank(q) && Describes(d, g, q);
    DescribedBox(d, g, q);
    D.RankFacts(g, q);
    CornersInside(g, d.Box());
  }

  lemma CornersInside(g: D.ProcGrid, b: BBX)
    requires b.Proper() && b.dims == 3 && forall p: Point :: b.Has(p) ==> g.InDomain(p)
    ensures Inside(b, Domain(Cube(g)))
  {
    assert b.Has(b.Lower()) && b.Has(b.Upper());
    var d := Domain(Cube(g));
    assert d.Lo(0) == d.Lo(1) == d.Lo(2) == 0 && d.Hi(0) == d.Hi(1) == d.Hi(2) == g.len - 1;
  }

  /** The ranks' blocks cover every query inside the simulated cube. */
  lemma PutsCover(g: D.ProcGrid, puts: seq<BlockDescriptor>, query: BBX)
    requires g.Good() && AllPut(g, puts) && query.Proper() && query.dims == 3 && Inside(query, Domain(Cube(g)))
    ensures AllProper(puts, 3) && Covered(query, puts)
  {
    PutsInside(g, puts);
    forall p: Point | query.Has(p) ensures InBlocks(p, puts, 3) {
      InsideDomain(Cube(g), query, p);
      D.BlocksTile(g, p);
      var q := g.Owner(p);
      assert g.Block(q).Has(p) && FromRank(g, puts, q);
      var k :| 0 <= k < |puts| && Describes(puts[k], g, q);
      DescribedBox(puts[k], g, q);
      assert puts[k].Box().Has(p);
    }
  }

  // ------------------------------------------------------------------
  // Registration of all puts
  // ------------------------------------------------------------------

  /** The puts that go to an address, given the list of each put. */
  function Told(puts: seq<BlockDescriptor>, targets: seq<seq<string>>, a: string): seq<BlockDescriptor>
    requires |puts| == |targets|
  {
    if puts == [] then []
    else
      var n := |puts| - 1;
      Told(puts[..n], targets[..n], a) + (if a in targets[n] then [puts[n]] else [])
  }

  lemma ToldNext(puts: seq<BlockDescriptor>, targets: seq<seq<string>>, i: nat, a: string)
    requires i < |puts| == |targets|
    ensures Told(puts[..i + 1], targets[..i + 1], a)
         == Told(puts[..i], targets[..i], a) + (if a in targets[i] then [puts[i]] else [])
  {
    assert puts[..i + 1][..i] == puts[..i] && targets[..i + 1][..i] == targets[..i];
  }

  lemma {:induction false} ToldIff(puts: seq<BlockDescriptor>, targets: seq<seq<string>>, a: string, d: BlockDescriptor)
    requires |puts| == |targets|
    ensures d in Told(puts, targets, a) <==> exists k :: 0 <= k < |puts| && puts[k] == d && a in targets[k]
  {
    if puts != [] {
      var n := |puts| - 1;
      ToldIff(puts[..n], targets[..n], a, d);
      if k :| 0 <= k < |puts| && puts[k] == d && a in targets[k] {
        if k < n { assert puts[..n][k] == d && a in targets[..n][k]; }
      }
    }
  }

  lemma ToldFacts(puts: seq<BlockDescriptor>, targets: seq<seq<string>>, a: string)
    requires |puts| == |targets|
    ensures Known(Told(puts, targets, a), Those(puts))
    ensures forall k :: 0 <= k < |puts| && a in targets[k] ==> puts[k] in Told(puts, targets, a)
  {
    var list := Told(puts, targets, a);
    forall i | 0 <= i < |list| ensures list[i] in puts { ToldIff(puts, targets, a, list[i]); }
    forall k | 0 <= k < |puts| && a in targets[k] ensures puts[k] in list { ToldIff(puts, targets, a, puts[k]); }
  }

  ghost function Those(puts: seq<BlockDescriptor>): iset<BlockDescriptor> { iset d | d in puts }

  /** The metadata servers that each put is told of. */
  ghost predicate Targets(dht: DHTManager, puts: seq<BlockDescriptor>, targets: seq<seq<string>>)
    requires dht.Valid() && AllSized(puts)
    reads dht
  {
    |targets| == |puts| && forall k {:trigger puts[k]} :: 0 <= k < |puts| ==> targets[k] == MetaList(dht, puts[k].Box())
  }

  /** The puts of one step, one after another: every server lists, behind what
      it had, the blocks it was told of. */
  method PublishAll(dht: DHTManager, servers: map<string, MetaServer>, step: nat, varName: string,
                    puts: seq<BlockDescriptor>, ghost targets: seq<seq<string>>, ghost lens: seq<int>,
                    ghost parts: seq<int>)
    requires Placed(dht, lens, parts, servers) && AllSized(puts) && AllProper(puts, |lens|)
    requires forall k {:trigger puts[k]} :: 0 <= k < |puts| ==>
      puts[k].dataType == DATATYPE_CARGRID && Inside(puts[k].Box(), Domain(lens))
    requires Targets(dht, puts, targets)
    requires forall a :: a in servers ==> servers[a].manager.Valid()
    modifies set a | a in servers :: servers[a].manager
    ensures forall a :: a in servers ==> servers[a].manager.Valid()
    ensures forall a :: a in servers ==>
      Listed(servers[a].manager, step, varName)
        == old(Listed(servers[a].manager, step, varName)) + Told(puts, targets, a)
  {
    ghost var first := map a | a in servers :: Listed(servers[a].manager, step, varName);
    for i := 0 to |puts|
      invariant forall a :: a in servers ==> servers[a].manager.Valid()
      invariant forall a :: a in servers ==>
        Listed(servers[a].manager, step, varName) == first[a] + Told(puts[..i], targets[..i], a)
    {
      ghost var seen := map a | a in servers :: Listed(servers[a].manager, step, varName);
      PublishOne(dht, servers, step, varName, puts[i], targets[i], lens, parts);
      forall a | a in servers
        ensures Listed(servers[a].manager, step, varName) == first[a] + Told(puts[..i + 1], targets[..i + 1], a)
      {
        ToldNext(puts, targets, i, a);
        Assoc(first[a], Told(puts[..i], targets[..i], a), if a in targets[i] then [puts[i]] else [], seen[a],
              Listed(servers[a].manager, step, varName));
      }
    }
    assert puts[..|puts|] == puts && targets[..|puts|] == targets;
  }

  /** One put, seen through the lists of its key. */
  method PublishOne(dht: DHTManager, servers: map<string, MetaServer>, step: nat, varName: string, d: BlockDescriptor,
                    ghost target: seq<string>, ghost lens: seq<int>, ghost parts: seq<int>)
    requires Placed(dht, lens, parts, servers)
    requires d.Sized() && d.Proper() && d.dims == |lens| && Inside(d.Box(), Domain(lens))
    requires d.dataType == DATATYPE_CARGRID
    requires target == MetaList(dht, d.Box()) && forall a :: a in servers ==> servers[a].manager.Valid()
    modifies set a | a in servers :: servers[a].manager
    ensures forall a :: a in servers ==> servers[a].manager.Valid()
    ensures forall a :: a in servers ==>
      Listed(servers[a].manager, step, varName)
        == old(Listed(servers[a].manager, step, varName)) + (if a in target then [d] else [])
  {
    var r := RegisterBlock(dht, servers, step, varName, d, lens, parts);
    OneArrived(step, varName, d);
  }

  lemma OneArrived(step: nat, varName: string, d: BlockDescriptor)
    requires d.dataType == DATATYPE_CARGRID
    ensures Arrived([Registration(step, varName, d)], step, varName, DATATYPE_CARGRID) == [d]
  {
    var regs := [Registration(step, varName, d)];
    assert regs[..0] == [] && Arrived(regs[..0], step, varName, DATATYPE_CARGRID) == [];
  }

  // ------------------------------------------------------------------
  // From writer to reader
  // ------------------------------------------------------------------

  /** The servers stand for the simulated cube and no partition lacks an
      address. */
  ghost predicate Deployed(dht: DHTManager, parts: seq<int>, servers: map<string, MetaServer>, g: D.ProcGrid)
    requires g.Good()
    reads dht
  {
    && Placed(dht, Cube(g), parts, servers)
    && forall id :: 0 <= id < |dht.boxes| ==> id in dht.metaServerIDToAddr
  }

  /** The object behind a put holds what some rank had after t iterations, in
      some state that the run of the simulation reached. */
  ghost predicate StoredBy<T(0)>(g: D.ProcGrid, run: seq<L.System<Point, Halo.Fields<T>, seq<T>>>, t: nat,
                                 d: BlockDescriptor, store: Store<T>)
    requires g.Good()
    reads store.Values, set o | o in store.Values && o.rawMem != null :: o.rawMem
  {
    exists q: Point, i: nat :: RankStored(g, run, t, d, store, q, i)
  }

  ghost predicate RankStored<T(0)>(g: D.ProcGrid, run: seq<L.System<Point, Halo.Fields<T>, seq<T>>>, t: nat,
                                   d: BlockDescriptor, store: Store<T>, q: Point, i: nat)
    requires g.Good()
    reads store.Values, set o | o in store.Values && o.rawMem != null :: o.rawMem
  {
    && i < |run| && g.IsRank(q) && q in run[i].node && run[i].node[q].pc == 12 * t
    && Describes(d, g, q) && (d.rawDataServerAddr, d.rawDataID) in store
    && var o := store[(d.rawDataServerAddr, d.rawDataID)];
       o in store.Values && HoldsPut(o, d, g.Size(q), run[i].node[q].data.u)
  }

  ghost predicate AllStored<T(0)>(g: D.ProcGrid, run: seq<L.System<Point, Halo.Fields<T>, seq<T>>>, t: nat,
                                  puts: seq<BlockDescriptor>, store: Store<T>)
    requires g.Good()
    reads store.Values, set o | o in store.Values && o.rawMem != null :: o.rawMem
  {
    forall k {:trigger puts[k]} :: 0 <= k < |puts| ==> StoredBy(g, run, t, puts[k], store)
  }

  lemma PutsHoldField<T(0)>(g: D.ProcGrid, init: Point -> Halo.Fields<T>, kernel: Halo.Kernel<T>, noise: Halo.Noise<T>,
                            f: Runs.GlobalField<T>, limit: nat, run: seq<L.System<Point, Halo.Fields<T>, seq<T>>>,
                            t: nat, puts: seq<BlockDescriptor>, store: Store<T>)
    requires g.Good() && Runs.Starts(g, init, f) && L.Run(Halo.HaloProgram(g, init, kernel, noise), limit, run)
    requires AllPut(g, puts) && AllStored(g, run, t, puts, store)
    ensures HoldField(Those(puts), 3, store, Runs.GlobalAfter(g, kernel, noise, f, t).u)
  {
    PutsInside(g, puts);
    forall d | d in Those(puts)
      ensures d.Sized() && d.Proper() && d.dims == 3 && Trusted(d, 3, store, Runs.GlobalAfter(g, kernel, noise, f, t).u)
    {
      var k :| 0 <= k < |puts| && puts[k] == d;
      var q, i: nat :| RankStored(g, run, t, d, store, q, i);
      PutIsTrusted(g, init, kernel, noise, f, limit, run, i, q, t, d, store);
    }
  }

  ghost predicate SomeCorner(puts: seq<BlockDescriptor>, query: BBX)
    requires query.Valid()
  {
    exists k :: 0 <= k < |puts| && CornerOnly(puts[k], query)
  }

  /** Every server the reader is told of gets a request, and by its last one the
      server has all the puts that were sent to it. */
  ghost predicate Fed(dht: DHTManager, puts: seq<BlockDescriptor>, query: BBX, lists: seq<seq<BlockDescriptor>>,
                      polls: seq<seq<Poll>>, step: nat, varName: string)
    requires dht.Valid() && AllSized(puts) && |query.bounds| == query.dims
    requires |MetaList(dht, query)| <= |lists| && |MetaList(dht, query)| <= |polls|
    reads dht
  {
    forall i {:trigger polls[i]} :: 0 <= i < |MetaList(dht, query)| ==>
      |polls[i]| > 0
      && HoldsTold(dht, puts, MetaList(dht, query)[i], FirstLookup(lists[i], polls[i], |polls[i]| - 1, step, varName))
  }

  /** Then every such server comes to answer the reader. */
  lemma FedIsAnswered(g: D.ProcGrid, dht: DHTManager, parts: seq<int>, servers: map<string, MetaServer>,
                      puts: seq<BlockDescriptor>, query: BBX, lists: seq<seq<BlockDescriptor>>, polls: seq<seq<Poll>>,
                      step: nat, varName: string, i: nat)
    requires g.Good() && Deployed(dht, parts, servers, g) && AllPut(g, puts) && AllSized(puts)
    requires query.Proper() && query.dims == 3 && Inside(query, Domain(Cube(g)))
    requires |Shares(dht, query)| <= |lists| && |Shares(dht, query)| <= |polls| && i < |Shares(dht, query)|
    requires Fed(dht, puts, query, lists, polls, step, varName)
    ensures Polled(lists[i], polls[i], Shares(dht, query)[i].bbx, step, varName).answered
  {
    PutsCover(g, puts, query);
    PutsInside(g, puts);
    var n := |polls[i]| - 1;
    var list := FirstLookup(lists[i], polls[i], n, step, varName);
    RegisteredMeansReady(dht, Cube(g), parts, servers, puts, query, i, list);
    var share := Shares(dht, query)[i].bbx;
    assert CoveredAt(lists[i], polls[i], n, share, step, varName);
    PolledIff(lists[i], polls[i], share, step, varName);
  }

  /** The last corner of a block that lies in the query lies in some share. */
  lemma MeetingShare(g: D.ProcGrid, dht: DHTManager, parts: seq<int>, servers: map<string, MetaServer>, box: BBX,
                     query: BBX)
    returns (i: nat)
    requires g.Good() && Deployed(dht, parts, servers, g)
    requires query.Proper() && query.dims == 3 && Inside(query, Domain(Cube(g)))
    requires box.Valid() && query.Has(box.Upper())
    ensures i < |Shares(dht, query)| && ShareHas(Shares(dht, query)[i], box.Upper())
  {
    SharesCoverIff(dht, Cube(g), parts, servers, query);
    assert AllServed(dht, query) && InShares(Shares(dht, query), box.Upper());
    i :| 0 <= i < |Shares(dht, query)| && ShareHas(Shares(dht, query)[i], box.Upper());
  }

  /** Puts that hold a common cell stand for the same box. */
  lemma SameBlock(g: D.ProcGrid, puts: seq<BlockDescriptor>, d: BlockDescriptor, e: BlockDescriptor, p: Point)
    requires g.Good() && AllPut(g, puts) && d in puts && e in puts
    requires d.Sized() && d.Proper() && e.Sized() && e.Proper() && d.Box().Has(p) && e.Box().Has(p)
    ensures d.dims == e.dims && d.Box() == e.Box()
  {
    var i :| 0 <= i < |puts| && puts[i] == d;
    var j :| 0 <= j < |puts| && puts[j] == e;
    assert FromSomeRank(g, d) && FromSomeRank(g, e);
    var q: Point :| g.IsRank(q) && Describes(d, g, q);
    var r: Point :| g.IsRank(r) && Describes(e, g, r);
    DescribedBox(d, g, q);
    DescribedBox(e, g, r);
    D.RankFacts(g, q);
    D.BlocksTile(g, p);
  }

  /** If some put meets the query in its last corner alone, a server that covers
      its share must list such a block, so the reader cannot come to an end. */
  lemma CornerBlocks(g: D.ProcGrid, dht: DHTManager, parts: seq<int>, servers: map<string, MetaServer>,
                     puts: seq<BlockDescriptor>, query: BBX, answers: seq<Seen>)
    requires g.Good() && Deployed(dht, parts, servers, g) && AllPut(g, puts)
    requires query.Proper() && query.dims == 3 && Inside(query, Domain(Cube(g)))
    requires |answers| == |Shares(dht, query)|
    requires forall i {:trigger answers[i]} :: 0 <= i < |answers| ==>
      Known(answers[i].list, Those(puts)) && (answers[i].answered ==> Ready(answers[i].list, Shares(dht, query)[i].bbx))
    requires SomeCorner(puts, query)
    ensures !Clear(answers, |answers|, query)
  {
    var k :| 0 <= k < |puts| && CornerOnly(puts[k], query);
    CornerInQuery(puts[k], query);
    var i := MeetingShare(g, dht, parts, servers, puts[k].Box(), query);
    if answers[i].answered {
      ShareListed(g, dht, parts, servers, query, i, answers[i].list, puts[k].Box().Upper());
      CornerShows(g, puts, answers[i].list, k, query);
    }
  }

  lemma CornerInQuery(d: BlockDescriptor, query: BBX)
    requires query.Proper() && CornerOnly(d, query)
    ensures query.Has(d.Box().Upper()) && d.Box().Has(d.Box().Upper())
  {
    var clip := Clip(d.Box(), query);
    OverlapIsIntersection(d.Box(), query);
    assert clip.Has(clip.Lower());
  }

  lemma ShareListed(g: D.ProcGrid, dht: DHTManager, parts: seq<int>, servers: map<string, MetaServer>, query: BBX,
                    i: nat, list: seq<BlockDescriptor>, p: Point)
    requires g.Good() && Deployed(dht, parts, servers, g)
    requires query.Proper() && query.dims == 3 && Inside(query, Domain(Cube(g)))
    requires i < |Shares(dht, query)| && Ready(list, Shares(dht, query)[i].bbx) && ShareHas(Shares(dht, query)[i], p)
    ensures ListHas(list, p)
  {
    SharesCoverIff(dht, Cube(g), parts, servers, query);
    assert ShareOf(dht, query, Shares(dht, query)[i]);
  }

  /** A list of puts that shows the block's last corner has the block's box. */
  lemma CornerShows(g: D.ProcGrid, puts: seq<BlockDescriptor>, list: seq<BlockDescriptor>, k: nat, query: BBX)
    requires g.Good() && AllPut(g, puts) && query.Proper() && k < |puts| && CornerOnly(puts[k], query)
    requires Known(list, Those(puts)) && ListHas(list, puts[k].Box().Upper())
    ensures CornerListed(list, query)
  {
    var p := puts[k].Box().Upper();
    CornerInQuery(puts[k], query);
    var j :| 0 <= j < |list| && list[j].Sized() && list[j].Proper() && list[j].Box().Has(p);
    SameBlock(g, puts, list[j], puts[k], p);
    assert CornerOnly(list[j], query);
  }

  /** What the servers list are puts. */
  lemma ListedCorner(puts: seq<BlockDescriptor>, query: BBX, answers: seq<Seen>)
    requires query.Valid() && forall i {:trigger answers[i]} :: 0 <= i < |answers| ==>
      Known(answers[i].list, Those(puts))
    ensures Fails(answers, query) ==> SomeCorner(puts, query)
  {
    if i :| 0 <= i < |answers| && FailsAt(answers, i, query) {
      var j :| 0 <= j < |answers[i].list| && CornerOnly(answers[i].list[j], query);
      assert answers[i].list[j] in puts;
      var k :| 0 <= k < |puts| && puts[k] == answers[i].list[j];
    }
  }

  /** A reader whose servers are fed never waits, and fails exactly when some put
      meets the query in its last corner alone. */
  lemma ReaderFate(g: D.ProcGrid, dht: DHTManager, parts: seq<int>, servers: map<string, MetaServer>,
                   puts: seq<BlockDescriptor>, query: BBX, lists: seq<seq<BlockDescriptor>>, polls: seq<seq<Poll>>,
                   step: nat, varName: string)
    requires g.Good() && Deployed(dht, parts, servers, g) && AllPut(g, puts) && AllSized(puts)
    requires query.Proper() && query.dims == 3 && Inside(query, Domain(Cube(g)))
    requires |Shares(dht, query)| == |lists| <= |polls|
    requires forall i {:trigger lists[i]} :: 0 <= i < |lists| ==> Known(lists[i], Those(puts))
    requires KnownPolls(polls, step, varName, Those(puts)) && Fed(dht, puts, query, lists, polls, step, varName)
    ensures var answers := Answers(lists, polls, Shares(dht, query), step, varName);
      !Starves(answers, query) && (Fails(answers, query) <==> SomeCorner(puts, query))
  {
    var answers := Answers(lists, polls, Shares(dht, query), step, varName);
    forall i | 0 <= i < |answers| ensures answers[i].answered && Known(answers[i].list, Those(puts)) {
      FedIsAnswered(g, dht, parts, servers, puts, query, lists, polls, step, varName, i);
      PolledKnown(lists[i], polls[i], Shares(dht, query)[i].bbx, step, varName, Those(puts));
    }
    OneFate(answers, query);
    ListedCorner(puts, query, answers);
    if SomeCorner(puts, query) { CornerBlocks(g, dht, parts, servers, puts, query, answers); }
  }

  /** Every late put arrives, at each server it is sent to that the reader asks,
      before the reader's last request there. */
  ghost predicate ArriveInTime(dht: DHTManager, late: seq<BlockDescriptor>, query: BBX, polls: seq<seq<Poll>>,
                               step: nat, varName: string)
    requires dht.Valid() && AllSized(late) && |query.bounds| == query.dims
    reads dht
  {
    forall i {:trigger polls[i]} :: 0 <= i < |polls| && i < |MetaList(dht, query)| ==>
      |polls[i]| > 0
      && HoldsTold(dht, late, MetaList(dht, query)[i], FirstLookup([], polls[i], |polls[i]| - 1, step, varName))
  }

  /** The whole way. Some of the ranks' blocks after t iterations, taken from any
      interleaving of the simulation, are registered; then a reader asks for any
      box of the cube, and the other blocks arrive while it polls. It is never left
      waiting, and it gets the global field after t steps at every cell of its box,
      unless some block meets the box in its last corner alone, and then it
      fails. */
  method PutThenGet<T(0)>(dht: DHTManager, servers: map<string, MetaServer>, store: Store<T>, step: nat,
                          varName: string, early: seq<BlockDescriptor>, ghost late: seq<BlockDescriptor>,
                          indexlb: Point, indexub: Point, polls: seq<seq<Poll>>, ghost g: D.ProcGrid,
                          ghost parts: seq<int>, ghost init: Point -> Halo.Fields<T>, ghost kernel: Halo.Kernel<T>,
                          ghost noise: Halo.Noise<T>, ghost f: Runs.GlobalField<T>, ghost limit: nat,
                          ghost run: seq<L.System<Point, Halo.Fields<T>, seq<T>>>, ghost t: nat)
    returns (r: Outcome<T>)
    requires g.Good() && Runs.Starts(g, init, f) && L.Run(Halo.HaloProgram(g, init, kernel, noise), limit, run)
    requires AllPut(g, early + late) && AllStored(g, run, t, early + late, store) && AllSized(late)
    requires Deployed(dht, parts, servers, g)
    requires forall a :: a in servers ==> servers[a].manager.Valid() && Listed(servers[a].manager, step, varName) == []
    requires MakeBBX(3, indexlb, indexub).Proper() && Inside(MakeBBX(3, indexlb, indexub), Domain(Cube(g)))
    requires Int32Point(MakeBBX(3, indexlb, indexub).Lower()) && Int32Point(MakeBBX(3, indexlb, indexub).Upper())
    requires |polls| == |dht.boxes| && KnownPolls(polls, step, varName, Those(early + late))
    requires ArriveInTime(dht, late, MakeBBX(3, indexlb, indexub), polls, step, varName)
    modifies set a | a in servers :: servers[a].manager
    ensures !r.Waiting?
    ensures r.Done? ==>
      FieldAt(r.matrix[..], MakeBBX(3, indexlb, indexub), Runs.GlobalAfter(g, kernel, noise, f, t).u)
    ensures r.Failed? <==> SomeCorner(early + late, MakeBBX(3, indexlb, indexub))
  {
    ghost var field := Runs.GlobalAfter(g, kernel, noise, f, t).u;
    PutsHoldField(g, init, kernel, noise, f, limit, run, t, early + late, store);
    r := PublishThenGet(dht, servers, store, step, varName, early, late, indexlb, indexub, polls, g, parts,
                        Those(early + late), field);
  }

  /** The same for any trusted field. */
  method PublishThenGet<T(0)>(dht: DHTManager, servers: map<string, MetaServer>, store: Store<T>, step: nat,
                              varName: string, early: seq<BlockDescriptor>, ghost late: seq<BlockDescriptor>,
                              indexlb: Point, indexub: Point, polls: seq<seq<Poll>>, ghost g: D.ProcGrid,
                              ghost parts: seq<int>, ghost trusted: iset<BlockDescriptor>, ghost field: Point -> T)
    returns (r: Outcome<T>)
    requires g.Good() && Deployed(dht, parts, servers, g) && AllPut(g, early + late) && trusted == Those(early + late)
    requires forall a :: a in servers ==> servers[a].manager.Valid() && Listed(servers[a].manager, step, varName) == []
    requires MakeBBX(3, indexlb, indexub).Proper() && Inside(MakeBBX(3, indexlb, indexub), Domain(Cube(g)))
    requires Int32Point(MakeBBX(3, indexlb, indexub).Lower()) && Int32Point(MakeBBX(3, indexlb, indexub).Upper())
    requires HoldField(trusted, 3, store, field)
    requires |polls| == |dht.boxes| && KnownPolls(polls, step, varName, trusted)
    requires AllSized(late)
    requires ArriveInTime(dht, late, MakeBBX(3, indexlb, indexub), polls, step, varName)
    modifies set a | a in servers :: servers[a].manager
    ensures !r.Waiting?
    ensures r.Done? ==> FieldAt(r.matrix[..], MakeBBX(3, indexlb, indexub), field)
    ensures r.Failed? <==> SomeCorner(early + late, MakeBBX(3, indexlb, indexub))
  {
    PublishEarly(dht, servers, step, varName, early, late, g, parts, MakeBBX(3, indexlb, indexub), polls);
    r := GetFed(dht, servers, store, step, varName, early + late, indexlb, indexub, polls, g, parts, trusted, field);
  }

  /** The writers that come before the reader. */
  method PublishEarly(dht: DHTManager, servers: map<string, MetaServer>, step: nat, varName: string,
                      early: seq<BlockDescriptor>, ghost late: seq<BlockDescriptor>, ghost g: D.ProcGrid,
                      ghost parts: seq<int>, ghost query: BBX, ghost polls: seq<seq<Poll>>)
    requires g.Good() && Deployed(dht, parts, servers, g) && AllPut(g, early + late) && AllSized(late)
    requires forall a :: a in servers ==> servers[a].manager.Valid() && Listed(servers[a].manager, step, varName) == []
    requires query.Proper() && query.dims == 3 && Inside(query, Domain(Cube(g)))
    requires |polls| == |dht.boxes| && ArriveInTime(dht, late, query, polls, step, varName)
    modifies set a | a in servers :: servers[a].manager
    ensures |MetaList(dht, query)| <= |polls|
    ensures AllSized(early + late) && Healthy(servers, step, varName, Those(early + late))
    ensures Fed(dht, early + late, query, Lists(servers, MetaList(dht, query), step, varName), polls, step, varName)
  {
    PutsInside(g, early + late);
    EarlyInside(g, early, late);
    ghost var targets := AllTargets(dht, early);
    PublishAll(dht, servers, step, varName, early, targets, Cube(g), parts);
    forall a | a in servers ensures Known(Listed(servers[a].manager, step, varName), Those(early + late)) {
      ToldFacts(early, targets, a);
    }
    SharesCoverIff(dht, Cube(g), parts, servers, query);
    ListDistinct(dht, Cube(g), parts, servers, query);
    EarlyFeeds(dht, early, late, targets, query, Lists(servers, MetaList(dht, query), step, varName), polls, step,
               varName);
  }

  lemma EarlyInside(g: D.ProcGrid, early: seq<BlockDescriptor>, late: seq<BlockDescriptor>)
    requires g.Good() && AllPut(g, early + late)
    ensures AllSized(early) && AllProper(early, 3)
    ensures forall k {:trigger early[k]} :: 0 <= k < |early| ==>
      early[k].dataType == DATATYPE_CARGRID && Inside(early[k].Box(), Domain(Cube(g)))
  {
    PutsInside(g, early + late);
    forall k | 0 <= k < |early|
      ensures early[k].Sized() && early[k].Proper() && early[k].dims == 3
      ensures early[k].dataType == DATATYPE_CARGRID && Inside(early[k].Box(), Domain(Cube(g)))
    {
      assert (early + late)[k] == early[k];
    }
  }

  /** What was registered before the reader came and what arrives in time is all
      that its servers need. */
  lemma EarlyFeeds(dht: DHTManager, early: seq<BlockDescriptor>, late: seq<BlockDescriptor>,
                   targets: seq<seq<string>>, query: BBX, lists: seq<seq<BlockDescriptor>>, polls: seq<seq<Poll>>,
                   step: nat, varName: string)
    requires dht.Valid() && AllSized(early) && AllSized(late) && AllSized(early + late)
    requires |query.bounds| == query.dims && |MetaList(dht, query)| == |lists| <= |polls|
    requires Targets(dht, early, targets) && ArriveInTime(dht, late, query, polls, step, varName)
    requires forall i {:trigger lists[i]} :: 0 <= i < |lists| ==>
      lists[i] == Told(early, targets, MetaList(dht, query)[i])
    ensures Fed(dht, early + late, query, lists, polls, step, varName)
  {
    var puts := early + late;
    forall i | 0 <= i < |lists|
      ensures |polls[i]| > 0
      ensures HoldsTold(dht, puts, MetaList(dht, query)[i],
                        FirstLookup(lists[i], polls[i], |polls[i]| - 1, step, varName))
    {
      var a, n := MetaList(dht, query)[i], |polls[i]| - 1;
      LookupSplit(lists[i], polls[i], n, step, varName);
      ToldFacts(early, targets, a);
      forall k | 0 <= k < |puts| && a in MetaList(dht, puts[k].Box())
        ensures puts[k] in FirstLookup(lists[i], polls[i], n, step, varName)
      {
        if k < |early| { assert puts[k] == early[k]; } else { assert puts[k] == late[k - |early|]; }
      }
    }
  }

  lemma {:induction false} AllTargets(dht: DHTManager, puts: seq<BlockDescriptor>) returns (targets: seq<seq<string>>)
    requires dht.Valid() && AllSized(puts)
    ensures Targets(dht, puts, targets)
  {
    targets := [];
    if puts != [] {
      var n := |puts| - 1;
      targets := AllTargets(dht, puts[..n]);
      targets := targets + [MetaList(dht, puts[n].Box())];
      forall k | 0 <= k < |puts| ensures targets[k] == MetaList(dht, puts[k].Box()) {
        if k < n { assert puts[..n][k] == puts[k]; }
      }
    }
  }

  /** The reader, whose servers have or get all that was sent to them. */
  method GetFed<T(0)>(dht: DHTManager, servers: map<string, MetaServer>, store: Store<T>, step: nat,
                      varName: string, ghost puts: seq<BlockDescriptor>, indexlb: Point, indexub: Point,
                      polls: seq<seq<Poll>>, ghost g: D.ProcGrid, ghost parts: seq<int>,
                      ghost trusted: iset<BlockDescriptor>, ghost field: Point -> T)
    returns (r: Outcome<T>)
    requires g.Good() && Deployed(dht, parts, servers, g) && AllPut(g, puts) && AllSized(puts) && trusted == Those(puts)
    requires MakeBBX(3, indexlb, indexub).Proper() && Inside(MakeBBX(3, indexlb, indexub), Domain(Cube(g)))
    requires Int32Point(MakeBBX(3, indexlb, indexub).Lower()) && Int32Point(MakeBBX(3, indexlb, indexub).Upper())
    requires HoldField(trusted, 3, store, field) && Healthy(servers, step, varName, trusted)
    requires |polls| == |dht.boxes| && KnownPolls(polls, step, varName, trusted)
    requires
      var query := MakeBBX(3, indexlb, indexub);
      var metaList := MetaList(dht, query);
      |metaList| <= |polls| && Fed(dht, puts, query, Lists(servers, metaList, step, varName), polls, step, varName)
    modifies set a | a in servers :: servers[a].manager
    ensures !r.Waiting?
    ensures r.Done? ==> FieldAt(r.matrix[..], MakeBBX(3, indexlb, indexub), field)
    ensures r.Failed? <==> SomeCorner(puts, MakeBBX(3, indexlb, indexub))
  {
    ghost var query := MakeBBX(3, indexlb, indexub);
    ghost var lists := Lists(servers, MetaList(dht, query), step, varName);
    ReaderFate(g, dht, parts, servers, puts, query, lists, polls, step, varName);
    ghost var init, answers;
    r, init, answers := GetArbitraryData(dht, servers, store, step, varName, 3, indexlb, indexub, polls, Cube(g), parts,
                                         trusted, field);
  }
}
