/** The metadata server: MetaDataManager of
    server/MetadataManager/metadataManager.cpp and the RPC handlers
    putmetadata and getBlockDescriptorList of server/unimosserver.cpp. */
module Metadata {
  import opened Outcomes
  import opened Boxes
  import opened Descriptors
  import opened Coverage

  const DATATYPE_CARGRID := "CARGRID"

  /** step -> variable -> data type -> descriptors in arrival order. */
  type MetaMap = map<nat, map<string, map<string, seq<BlockDescriptor>>>>

  /** What the two lookups of the source see: nothing for an unknown step or
      variable, an exception for a known variable without that data type. */
  function Lookup(m: MetaMap, step: nat, varName: string, dataType: string): Result<seq<BlockDescriptor>> {
    if step !in m then Ok([])
    else if varName !in m[step] then Ok([])
    else if dataType !in m[step][varName] then Err(NoSuchType)
    else Ok(m[step][varName][dataType])
  }

  function Recorded(m: MetaMap, step: nat, varName: string, dataType: string): seq<BlockDescriptor> {
    match Lookup(m, step, varName, dataType) case Ok(list) => list case Err(_) => []
  }

  /** A registration as it arrives at the server. */
  datatype Registration = Registration(step: nat, varName: string, rde: BlockDescriptor)

  /** The descriptors of one key among a run of arrivals. */
  function Arrived(regs: seq<Registration>, step: nat, varName: string, dataType: string): seq<BlockDescriptor> {
    if regs == [] then []
    else
      var last := regs[|regs| - 1];
      Arrived(regs[..|regs| - 1], step, varName, dataType)
        + (if last.step == step && last.varName == varName && last.rde.dataType == dataType then [last.rde] else [])
  }

  /** Every list of the map grew by exactly the arrivals for its key. */
  ghost predicate Grown(before: MetaMap, after: MetaMap, regs: seq<Registration>) {
    forall s, v, t {:trigger Recorded(after, s, v, t)} ::
      Recorded(after, s, v, t) == Recorded(before, s, v, t) + Arrived(regs, s, v, t)
  }

  predicate KnownVar(m: MetaMap, step: nat, varName: string) { step in m && varName in m[step] }

  /** One registration changed exactly the answers it should: its key has one
      more descriptor, and a variable it makes known answers every other type
      with an exception from now on. */
  ghost predicate Extended(before: MetaMap, after: MetaMap, reg: Registration) {
    && (forall s, v :: KnownVar(after, s, v) <==> KnownVar(before, s, v) || (s == reg.step && v == reg.varName))
    && (forall s, v, t {:trigger Lookup(after, s, v, t)} ::
         Lookup(after, s, v, t) ==
           if s != reg.step || v != reg.varName then Lookup(before, s, v, t)
           else if t == reg.rde.dataType then Ok(Recorded(before, s, v, t) + [reg.rde])
           else if KnownVar(before, s, v) then Lookup(before, s, v, t)
           else Err(NoSuchType))
  }

  lemma Inserted(before: MetaMap, after: MetaMap, reg: Registration)
    requires after == before[reg.step :=
      var vars := if reg.step in before then before[reg.step] else map[];
      var block := if reg.varName in vars then vars[reg.varName] else map[];
      var list := if reg.rde.dataType in block then block[reg.rde.dataType] else [];
      vars[reg.varName := block[reg.rde.dataType := list + [reg.rde]]]]
    ensures Extended(before, after, reg)
  {
  }

  lemma StaySized(before: MetaMap, after: MetaMap, reg: Registration)
    requires Extended(before, after, reg) && reg.rde.Sized()
    requires forall s, v, t :: AllSized(Recorded(before, s, v, t))
    ensures forall s, v, t :: AllSized(Recorded(after, s, v, t))
  {
    forall s, v, t ensures AllSized(Recorded(after, s, v, t)) {
      assert AllSized(Recorded(before, s, v, t));
      assert Lookup(after, s, v, t) == Lookup(after, s, v, t);
    }
  }

  lemma ExtendedGrows(before: MetaMap, after: MetaMap, reg: Registration)
    requires Extended(before, after, reg)
    ensures Grown(before, after, [reg])
  {
    forall s, v, t ensures Recorded(after, s, v, t) == Recorded(before, s, v, t) + Arrived([reg], s, v, t) {
      assert [reg][..0] == [] && Arrived([reg][..0], s, v, t) == [];
      assert Lookup(after, s, v, t) == Lookup(after, s, v, t);
    }
  }

  /** Something was registered under the step and variable. */
  predicate AnyFor(regs: seq<Registration>, step: nat, varName: string) {
    exists i :: 0 <= i < |regs| && regs[i].step == step && regs[i].varName == varName
  }

  /** What a query must answer after a run of registrations: the descriptors of
      its key in arrival order, or an exception when its variable has arrivals
      of that step but none of that type. */
  function Answered(regs: seq<Registration>, step: nat, varName: string, dataType: string)
    : Result<seq<BlockDescriptor>>
  {
    if AnyFor(regs, step, varName) && Arrived(regs, step, varName, dataType) == [] then Err(NoSuchType)
    else Ok(Arrived(regs, step, varName, dataType))
  }

  ghost predicate History(m: MetaMap, regs: seq<Registration>) {
    && (forall s, v :: KnownVar(m, s, v) <==> AnyFor(regs, s, v))
    && (forall s, v, t {:trigger Lookup(m, s, v, t)} :: Lookup(m, s, v, t) == Answered(regs, s, v, t))
  }

  lemma {:induction false} NoneArrived(regs: seq<Registration>, step: nat, varName: string, dataType: string)
    requires !AnyFor(regs, step, varName)
    ensures Arrived(regs, step, varName, dataType) == []
  {
    if regs != [] {
      var front := regs[..|regs| - 1];
      assert forall i :: 0 <= i < |front| ==> front[i] == regs[i];
      assert regs[|regs| - 1].step != step || regs[|regs| - 1].varName != varName;
      NoneArrived(front, step, varName, dataType);
    }
  }

  lemma AnsweredNext(regs: seq<Registration>, reg: Registration, s: nat, v: string, t: string)
    ensures AnyFor(regs + [reg], s, v) <==> AnyFor(regs, s, v) || (s == reg.step && v == reg.varName)
    ensures Answered(regs + [reg], s, v, t) ==
      if s != reg.step || v != reg.varName then Answered(regs, s, v, t)
      else if t == reg.rde.dataType then Ok(Arrived(regs, s, v, t) + [reg.rde])
      else if AnyFor(regs, s, v) then Answered(regs, s, v, t)
      else Err(NoSuchType)
  {
    var more := regs + [reg];
    assert more[..|more| - 1] == regs && more[|more| - 1] == reg;
    assert AnyFor(more, s, v) <==> AnyFor(regs, s, v) || (s == reg.step && v == reg.varName) by {
      if i :| 0 <= i < |regs| && regs[i].step == s && regs[i].varName == v { assert more[i] == regs[i]; }
      if i :| 0 <= i < |more| && more[i].step == s && more[i].varName == v { assert i < |regs| ==> more[i] == regs[i]; }
    }
    var last := if s == reg.step && v == reg.varName && reg.rde.dataType == t then [reg.rde] else [];
    assert Arrived(more, s, v, t) == Arrived(regs, s, v, t) + last;
    assert Arrived(regs, s, v, t) + [] == Arrived(regs, s, v, t);
    if !AnyFor(regs, s, v) { NoneArrived(regs, s, v, t); }
  }

  lemma HistoryNext(before: MetaMap, after: MetaMap, regs: seq<Registration>, reg: Registration)
    requires History(before, regs) && Extended(before, after, reg)
    ensures History(after, regs + [reg])
  {
    forall s, v ensures KnownVar(after, s, v) <==> AnyFor(regs + [reg], s, v) {
      AnsweredNext(regs, reg, s, v, "");
    }
    forall s, v, t ensures Lookup(after, s, v, t) == Answered(regs + [reg], s, v, t) {
      AnsweredNext(regs, reg, s, v, t);
      assert Lookup(before, s, v, t) == Answered(regs, s, v, t);
    }
  }

  lemma {:induction false} ArrivedConcat(xs: seq<Registration>, ys: seq<Registration>, s: nat, v: string, t: string)
    ensures Arrived(xs + ys, s, v, t) == Arrived(xs, s, v, t) + Arrived(ys, s, v, t)
  {
    if ys == [] {
      assert xs + ys == xs;
    } else {
      ArrivedConcat(xs, ys[..|ys| - 1], s, v, t);
      assert (xs + ys)[..|xs + ys| - 1] == xs + ys[..|ys| - 1];
    }
  }

  lemma GrownTwice(m0: MetaMap, m1: MetaMap, m2: MetaMap, xs: seq<Registration>, ys: seq<Registration>)
    requires Grown(m0, m1, xs) && Grown(m1, m2, ys)
    ensures Grown(m0, m2, xs + ys)
  {
    forall s, v, t ensures Recorded(m2, s, v, t) == Recorded(m0, s, v, t) + Arrived(xs + ys, s, v, t) {
      ArrivedConcat(xs, ys, s, v, t);
      Assoc(Recorded(m0, s, v, t), Arrived(xs, s, v, t), Arrived(ys, s, v, t),
            Recorded(m1, s, v, t), Recorded(m2, s, v, t));
    }
  }

  lemma Assoc<T>(a: seq<T>, b: seq<T>, c: seq<T>, ab: seq<T>, abc: seq<T>)
    requires ab == a + b && abc == ab + c
    ensures abc == a + (b + c)
  {
  }

  /** The clipped descriptors of the blocks that meet the query. */
  function OverlapEndpoints(list: seq<BlockDescriptor>, query: BBX): Result<seq<BlockDescriptor>>
    requires AllSized(list) && |query.bounds| == query.dims
  {
    if list == [] then Ok([])
    else
      var n := |list| - 1;
      var before :- OverlapEndpoints(list[..n], query);
      var overlap :- OverlapBBX(list[n].Box(), query);
      if overlap.None? then Ok(before)
      else Ok(before + [list[n].(indexlb := overlap.value.Lower(), indexub := overlap.value.Upper())])
  }

  lemma {:induction false} OverlapEndpointsErr(list: seq<BlockDescriptor>, n: nat, query: BBX)
    requires n <= |list| && AllSized(list) && |query.bounds| == query.dims
    requires OverlapEndpoints(list[..n], query).Err?
    ensures OverlapEndpoints(list, query) == OverlapEndpoints(list[..n], query)
    decreases |list|
  {
    if n == |list| {
      assert list[..n] == list;
    } else {
      assert list[..|list| - 1][..n] == list[..n];
      OverlapEndpointsErr(list[..|list| - 1], n, query);
    }
  }

  class MetaDataManager {
    var metaDataMap: MetaMap

    /** Index arrays bound the dimension of every stored descriptor. */
    ghost predicate Valid()
      reads this
    {
      forall s, v, t :: AllSized(Recorded(metaDataMap, s, v, t))
    }

    constructor ()
      ensures Valid() && metaDataMap == map[]
    {
      metaDataMap := map[];
    }

    method UpdateMetaData(step: nat, varName: string, rde: BlockDescriptor)
      requires Valid() && rde.Sized()
      modifies this
      ensures Valid()
      ensures Extended(old(metaDataMap), metaDataMap, Registration(step, varName, rde))
      ensures Grown(old(metaDataMap), metaDataMap, [Registration(step, varName, rde)])
    {
      if step !in metaDataMap {
        metaDataMap := metaDataMap[step := map[]];
      }
      var vars := metaDataMap[step];
      var block := if varName in vars then vars[varName] else map[];
      var list := if rde.dataType in block then block[rde.dataType] else [];
      metaDataMap := metaDataMap[step := vars[varName := block[rde.dataType := list + [rde]]]];
      Inserted(old(metaDataMap), metaDataMap, Registration(step, varName, rde));
      ExtendedGrows(old(metaDataMap), metaDataMap, Registration(step, varName, rde));
      StaySized(old(metaDataMap), metaDataMap, Registration(step, varName, rde));
    }

    method GetRawEndpoints(step: nat, varName: string, dataType: string) returns (r: Result<seq<BlockDescriptor>>)
      ensures r == Lookup(metaDataMap, step, varName, dataType)
    {
      if step !in metaDataMap { return Ok([]); }
      if varName !in metaDataMap[step] { return Ok([]); }
      if dataType !in metaDataMap[step][varName] { return Err(NoSuchType); }
      r := Ok(metaDataMap[step][varName][dataType]);
    }

    method GetOverlapEndpoints(step: nat, varName: string, query: BBX, dataType: string)
      returns (r: Result<seq<BlockDescriptor>>)
      requires Valid() && |query.bounds| == query.dims
      ensures AllSized(Recorded(metaDataMap, step, varName, dataType))
      ensures var stored := Lookup(metaDataMap, step, varName, dataType);
        r == if stored.Ok? then OverlapEndpoints(stored.value, query) else stored
    {
      assert AllSized(Recorded(metaDataMap, step, varName, dataType));
      if step !in metaDataMap { return Ok([]); }
      if varName !in metaDataMap[step] { return Ok([]); }
      if dataType !in metaDataMap[step][varName] { return Err(NoSuchType); }
      var stored := metaDataMap[step][varName][dataType];
      var endpoints: seq<BlockDescriptor> := [];
      for i := 0 to |stored|
        invariant AllSized(stored[..i]) && OverlapEndpoints(stored[..i], query) == Ok(endpoints)
      {
        assert stored[..i + 1][..i] == stored[..i];
        var overlap := GetOverlapBBX(stored[i].Box(), query);
        if overlap.Err? {
          OverlapEndpointsErr(stored, i + 1, query);
          return Err(overlap.error);
        }
        if overlap.value.Some? {
          var shared := overlap.value.value;
          endpoints := endpoints + [stored[i].(indexlb := shared.Lower(), indexub := shared.Upper())];
        }
      }
      assert stored[..|stored|] == stored;
      r := Ok(endpoints);
    }
  }

  /** Any run of updates from the empty map, then one query. */
  method QueryAfter(regs: seq<Registration>, step: nat, varName: string, dataType: string)
    returns (r: Result<seq<BlockDescriptor>>)
    requires forall i :: 0 <= i < |regs| ==> regs[i].rde.Sized()
    ensures r == Answered(regs, step, varName, dataType)
  {
    var manager := new MetaDataManager();
    for i := 0 to |regs|
      invariant manager.Valid() && History(manager.metaDataMap, regs[..i])
    {
      ghost var before := manager.metaDataMap;
      manager.UpdateMetaData(regs[i].step, regs[i].varName, regs[i].rde);
      HistoryNext(before, manager.metaDataMap, regs[..i], regs[i]);
      assert regs[..i + 1] == regs[..i] + [regs[i]];
    }
    assert regs[..|regs|] == regs;
    r := manager.GetRawEndpoints(step, varName, dataType);
  }

  /** What the handler answers, given what the two lookups saw. Every
      exception is caught and answered with an empty list. */
  function Answer(raw: seq<BlockDescriptor>, later: seq<BlockDescriptor>, partition: BBX, query: BBX)
    : seq<BlockDescriptor>
    requires AllSized(raw) && AllSized(later)
    requires |partition.bounds| == partition.dims && |query.bounds| == query.dims
  {
    match OverlapBBX(query, partition) {
      case Err(_) => []
      case Ok(None) => []
      case Ok(Some(share)) =>
        if CoverAnswer(raw, share) != Ok(true) then []
        else match OverlapEndpoints(later, query) { case Ok(list) => list case Err(_) => [] }
    }
  }

  /** getBlockDescriptorList. `arrivals` are the putmetadata requests the
      server handles between its two lookups. */
  method GetBlockDescriptorList(manager: MetaDataManager, partition: BBX, step: nat, varName: string,
                                query: BBX, arrivals: seq<Registration>)
    returns (answer: seq<BlockDescriptor>)
    requires manager.Valid() && query.Valid() && |partition.bounds| == partition.dims
    requires forall i :: 0 <= i < |arrivals| ==> arrivals[i].rde.Sized()
    modifies manager
    ensures manager.Valid()
    ensures Grown(old(manager.metaDataMap), manager.metaDataMap, arrivals)
    ensures
      var raw := Recorded(old(manager.metaDataMap), step, varName, DATATYPE_CARGRID);
      var later := raw + Arrived(arrivals, step, varName, DATATYPE_CARGRID);
      AllSized(raw) && AllSized(later) && answer == Answer(raw, later, partition, query)
  {
    ghost var m0 := manager.metaDataMap;
    var rdeplist := manager.GetRawEndpoints(step, varName, DATATYPE_CARGRID);
    assert AllSized(Recorded(m0, step, varName, DATATYPE_CARGRID));
    ApplyArrivals(manager, arrivals);
    assert AllSized(Recorded(manager.metaDataMap, step, varName, DATATYPE_CARGRID));
    answer := [];
    if rdeplist.Err? {
      EmptyAnswer(Recorded(manager.metaDataMap, step, varName, DATATYPE_CARGRID), partition, query);
      return;
    }
    var overlap := GetOverlapBBX(query, partition);
    if overlap.Err? || overlap.value.None? { return; }
    var ifcover := IfCovered(rdeplist.value, overlap.value.value);
    if ifcover != Ok(true) { return; }
    var list := manager.GetOverlapEndpoints(step, varName, query, DATATYPE_CARGRID);
    if list.Ok? {
      answer := list.value;
    }
  }

  /** With nothing recorded the answer is empty, as it is after an exception. */
  lemma EmptyAnswer(later: seq<BlockDescriptor>, partition: BBX, query: BBX)
    requires AllSized(later) && |partition.bounds| == partition.dims && |query.bounds| == query.dims
    ensures Answer([], later, partition, query) == []
  {
  }

  method ApplyArrivals(manager: MetaDataManager, arrivals: seq<Registration>)
    requires manager.Valid() && forall i :: 0 <= i < |arrivals| ==> arrivals[i].rde.Sized()
    modifies manager
    ensures manager.Valid()
    ensures Grown(old(manager.metaDataMap), manager.metaDataMap, arrivals)
  {
    ghost var m0 := manager.metaDataMap;
    for i := 0 to |arrivals|
      invariant manager.Valid() && Grown(m0, manager.metaDataMap, arrivals[..i])
    {
      ghost var m1 := manager.metaDataMap;
      manager.UpdateMetaData(arrivals[i].step, arrivals[i].varName, arrivals[i].rde);
      assert arrivals[i] == Registration(arrivals[i].step, arrivals[i].varName, arrivals[i].rde);
      GrownTwice(m0, m1, manager.metaDataMap, arrivals[..i], [arrivals[i]]);
      assert arrivals[..i + 1] == arrivals[..i] + [arrivals[i]];
    }
    assert arrivals[..|arrivals|] == arrivals;
  }

  // ------------------------------------------------------------------
  // Readiness
  // ------------------------------------------------------------------

  function Clipped(d: BlockDescriptor, query: BBX): BlockDescriptor
    requires d.Proper() && query.Valid() && d.dims == query.dims && Meets(d.Box(), query)
  {
    d.(indexlb := Clip(d.Box(), query).Lower(), indexub := Clip(d.Box(), query).Upper())
  }

  /** A clipped descriptor stands for the cells of the block in the query. */
  lemma ClippedBox(d: BlockDescriptor, query: BBX)
    requires d.Proper() && query.Proper() && d.dims == query.dims && Meets(d.Box(), query)
    ensures var e := Clipped(d, query);
      && e.Proper() && e.dims == query.dims && SameBox(e.Box(), Clip(d.Box(), query))
      && (forall p: Point :: e.Box().Has(p) <==> d.Box().Has(p) && query.Has(p))
      && Inside(e.Box(), query) && Inside(e.Box(), d.Box())
  {
    var c := Clip(d.Box(), query);
    var e := Clipped(d, query);
    OverlapIsIntersection(d.Box(), query);
    assert e.Box().bounds == c.bounds;
    SameCells(e.Box(), c);
  }

  lemma {:induction false} EndpointMembers(list: seq<BlockDescriptor>, query: BBX)
    requires query.Proper() && AllSized(list) && AllProper(list, query.dims)
    ensures OverlapEndpoints(list, query).Ok?
    ensures forall d :: d in list && Meets(d.Box(), query) ==> Clipped(d, query) in OverlapEndpoints(list, query).value
    ensures forall e :: e in OverlapEndpoints(list, query).value ==>
      exists i :: 0 <= i < |list| && Meets(list[i].Box(), query) && e == Clipped(list[i], query)
  {
    if list != [] {
      var n := |list| - 1;
      EndpointMembers(list[..n], query);
      forall d | d in list && Meets(d.Box(), query) ensures Clipped(d, query) in OverlapEndpoints(list, query).value {
        if d !in list[..n] { assert d == list[n]; }
      }
    }
  }

  /** With one axis the answer is non-empty exactly when some block that the
      first lookup saw meets the server's share. */
  lemma ServerReadyOneAxis(raw: seq<BlockDescriptor>, later: seq<BlockDescriptor>, partition: BBX, query: BBX)
    requires query.Proper() && query.dims == 1 && partition.Proper() && partition.dims == 1 && Meets(query, partition)
    requires raw <= later && AllSized(later) && AllProper(later, 1) && AllSized(raw) && AllProper(raw, 1)
    ensures Answer(raw, later, partition, query) != [] <==>
      exists k :: 0 <= k < |raw| && Meets(Clip(query, partition), raw[k].Box())
  {
    var share := Clip(query, partition);
    OverlapIsIntersection(query, partition);
    OneAxisDecision(share, 0, raw);
    if k :| 0 <= k < |raw| && Meets(share, raw[k].Box()) {
      MeetsWhole(share, query, raw[k].Box());
      assert later[k] == raw[k];
      HasEndpoint(later, query, k);
    }
  }

  lemma HasEndpoint(list: seq<BlockDescriptor>, query: BBX, k: nat)
    requires query.Proper() && AllSized(list) && AllProper(list, query.dims)
    requires k < |list| && Meets(list[k].Box(), query)
    ensures OverlapEndpoints(list, query).Ok? && OverlapEndpoints(list, query).value != []
  {
    EndpointMembers(list, query);
    assert list[k] in list;
  }

  lemma MeetsWhole(share: BBX, query: BBX, block: BBX)
    requires share.Proper() && query.Proper() && block.Proper() && share.dims == query.dims == block.dims
    requires Meets(share, block) && forall p: Point :: share.Has(p) ==> query.Has(p)
    ensures Meets(block, query)
  {
    OverlapIsIntersection(share, block);
    OverlapIsIntersection(block, query);
  }

  /** For a query meeting this server's partition: the answer is non-empty
      exactly when the share of the query is covered by the blocks the first
      lookup saw, and then the clipped descriptors of the second lookup, which
      may have seen more, cover the share. */
  lemma ServerReady(raw: seq<BlockDescriptor>, later: seq<BlockDescriptor>, partition: BBX, query: BBX)
    requires query.Proper() && query.dims >= 2 && partition.Proper() && partition.dims == query.dims
    requires Meets(query, partition)
    requires raw <= later && AllSized(later) && AllProper(later, query.dims) && AllSized(raw)
    requires AllProper(raw, query.dims)
    ensures Answer(raw, later, partition, query) != [] <==> Covered(Clip(query, partition), raw)
    ensures Answer(raw, later, partition, query) != [] ==>
      forall p: Point :: query.Has(p) && partition.Has(p) ==>
        exists e :: e in Answer(raw, later, partition, query) && e.Sized() && e.Proper() && e.Box().Has(p)
    ensures forall e :: e in Answer(raw, later, partition, query) ==>
      exists i :: 0 <= i < |later| && Meets(later[i].Box(), query) && e == Clipped(later[i], query)
  {
    var share := Clip(query, partition);
    OverlapIsIntersection(query, partition);
    CoverageDecision(share, raw);
    EndpointMembers(later, query);
    if Covered(share, raw) {
      var list := OverlapEndpoints(later, query).value;
      assert Answer(raw, later, partition, query) == list;
      forall p: Point | share.Has(p) ensures exists e :: e in list && e.Sized() && e.Proper() && e.Box().Has(p) {
        var k :| 0 <= k < |raw| && raw[k].Box().Has(p);
        assert later[k] == raw[k] && later[k] in later;
        OverlapIsIntersection(later[k].Box(), query);
        ClippedBox(later[k], query);
        assert Clipped(later[k], query) in list;
      }
      assert share.Has(share.Lower());
    }
  }
}
