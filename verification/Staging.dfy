/** The deployed staging service: metadata servers, the stores of the data
    servers, and what a reader may assume of them. */
module Staging {
  import opened Boxes
  import opened Descriptors
  import opened Dht
  import opened Matrix
  import opened Metadata
  import opened Reader

  /** A metadata server: its rank selects its partition of the DHT. */
  datatype MetaServer = MetaServer(rank: nat, manager: MetaDataManager)

  /** Where a block's data lives: server address and block id. */
  type Store<T(0)> = map<(string, string), RawMemObj<T>>

  ghost predicate OwnManagers(servers: map<string, MetaServer>) {
    forall a, b :: a in servers && b in servers && a != b ==> servers[a].manager != servers[b].manager
  }

  /** The DHT is the partition of the domain, every address it knows for a
      partition leads to the server of that rank, and each server has a manager of
      its own. Addresses may be missing. */
  ghost predicate Placed(dht: DHTManager, lens: seq<int>, parts: seq<int>, servers: map<string, MetaServer>)
    reads dht
  {
    && Layout(lens, parts) && |lens| >= 1
    && dht.Valid() && dht.boxes == Partitions(lens, parts) && OwnManagers(servers)
    && forall id :: 0 <= id < |dht.boxes| && id in dht.metaServerIDToAddr ==>
         dht.metaServerIDToAddr[id] in servers && servers[dht.metaServerIDToAddr[id]].rank == id
  }

  /** The object behind a descriptor holds, at the position of every cell of
      the block, the value of the global field there. */
  ghost predicate Trusted<T(0)>(d: BlockDescriptor, dims: nat, store: Store<T>, field: Point -> T)
    reads store.Values, set o | o in store.Values && o.rawMem != null :: o.rawMem
  {
    && d.Sized() && d.Proper() && d.dims == dims && d.backend == Mem
    && (d.rawDataServerAddr, d.rawDataID) in store
    && var o := store[(d.rawDataServerAddr, d.rawDataID)];
       && o in store.Values && o.Valid() && o.rawMem != null
       && o.summary.dims == d.dims && o.summary.indexlb == d.indexlb && o.summary.indexub == d.indexub
       && forall p: Point :: d.Box().Has(p) ==>
            0 <= d.Box().Index(p) < o.rawMem.Length && o.rawMem[d.Box().Index(p)] == field(p)
  }

  /** Every descriptor of the set stands for the field. */
  ghost predicate HoldField<T(0)>(trusted: iset<BlockDescriptor>, dims: nat, store: Store<T>, field: Point -> T)
    reads store.Values, set o | o in store.Values && o.rawMem != null :: o.rawMem
  {
    OfDims(trusted, dims) && forall d :: d in trusted ==> Trusted(d, dims, store, field)
  }

  /** What this client's reader sees of a metadata server. */
  function Listed(m: MetaDataManager, step: nat, varName: string): seq<BlockDescriptor>
    reads m
  {
    Recorded(m.metaDataMap, step, varName, DATATYPE_CARGRID)
  }

  /** Every registration so far, at every server, is of a trusted block. */
  ghost predicate Healthy(servers: map<string, MetaServer>, step: nat, varName: string, trusted: iset<BlockDescriptor>)
    reads set a | a in servers :: servers[a].manager
  {
    forall a :: a in servers ==>
      servers[a].manager.Valid() && Known(Listed(servers[a].manager, step, varName), trusted)
  }

  /** What each server of a list of addresses lists for the key. */
  ghost function Lists(servers: map<string, MetaServer>, metaList: seq<string>, step: nat, varName: string)
    : (r: seq<seq<BlockDescriptor>>)
    reads set a | a in servers :: servers[a].manager
    ensures |r| == |metaList|
    ensures forall i {:trigger r[i]} :: 0 <= i < |r| ==>
      r[i] == if metaList[i] in servers then Listed(servers[metaList[i]].manager, step, varName) else []
  {
    if metaList == [] then []
    else
      [if metaList[0] in servers then Listed(servers[metaList[0]].manager, step, varName) else []]
        + Lists(servers, metaList[1..], step, varName)
  }

  ghost predicate ListsAre(servers: map<string, MetaServer>, metaList: seq<string>, step: nat, varName: string,
                           lists: seq<seq<BlockDescriptor>>)
    reads set a | a in servers :: servers[a].manager
  {
    && |lists| == |metaList|
    && forall k {:trigger metaList[k]} {:trigger lists[k]} :: 0 <= k < |metaList| ==>
         metaList[k] in servers && Listed(servers[metaList[k]].manager, step, varName) == lists[k]
  }

  lemma ListsUnique(servers: map<string, MetaServer>, metaList: seq<string>, step: nat, varName: string,
                    lists: seq<seq<BlockDescriptor>>)
    requires ListsAre(servers, metaList, step, varName, lists)
    ensures lists == Lists(servers, metaList, step, varName)
  {
    var r := Lists(servers, metaList, step, varName);
    forall k | 0 <= k < |r| ensures r[k] == lists[k] { assert metaList[k] in servers; }
  }

  /** Each address on the list leads to a server of its own, whose partition is
      the one the query's share was computed from. */
  ghost predicate Reaches(servers: map<string, MetaServer>, boxes: map<int, BBX>, metaList: seq<string>, query: BBX,
                          shares: seq<ResponsibleMetaServer>)
    requires query.Valid()
  {
    && OwnManagers(servers) && |shares| == |metaList|
    && (forall i, j :: 0 <= i < j < |metaList| ==> metaList[i] != metaList[j])
    && forall i {:trigger metaList[i]} {:trigger shares[i]} :: 0 <= i < |metaList| ==>
         && metaList[i] in servers && servers[metaList[i]].rank in boxes
         && boxes[servers[metaList[i]].rank].Valid()
         && ShareShaped(query, boxes[servers[metaList[i]].rank], shares[i].bbx)
  }
}
