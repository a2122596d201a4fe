/** Static node pools: what is built, what the comparison with the configuration asks for, and which
    pools slices keep locked (internal/cloud/gke.go, internal/controller/static_nodepool_controller.go). */
module NodePools {
  import opened Base
  import opened Slices

  const STATIC := "tpu-provisioner-static-nodepool"
  const POOL_ID := "provisioner-nodepool-id"
  const MANAGER := "google.com/nodepool-manager"
  const HASH := "google.com/tpu-provisioner-nodepool-hash"
  const POOL_NAME := "cloud.google.com/gke-nodepool"

  /** The pool configuration; `rest` stands for the remaining fields the hash covers. */
  datatype Config = Config(nodeLabels: map<string, string>, recreateOnError: Option<bool>, rest: string)

  datatype DesiredPool = DesiredPool(name: string, subblock: string, config: Config)

  /** A node pool as listed: its name, the subblock it consumes, its node labels, its ERROR status. */
  datatype Pool = Pool(name: string, subblock: string, labels: map<string, string>, error: bool)

  /** What the provider is configured with: the hash of (labels, subblock, other fields), and whether
      the additional networks parse. */
  datatype Provider = Provider(hash: (map<string, string>, string, string) -> string, networksParse: bool)

  predicate IsStatic(labels: map<string, string>) { STATIC in labels && labels[STATIC] == "true" }

  function PlainLabels(d: DesiredPool): map<string, string> {
    map[MANAGER := "tpu-provisioner", POOL_ID := d.name, STATIC := "true"] + d.config.nodeLabels
  }

  /** `nodePoolHash`: the hash label itself is left out for static pools. */
  function HashOf(g: Provider, d: DesiredPool): string {
    var labels := PlainLabels(d);
    g.hash(if IsStatic(labels) then labels - {HASH} else labels, d.subblock, d.config.rest)
  }

  /** `StaticNodePoolForSubBlock` */
  function Build(g: Provider, d: DesiredPool): Option<Pool> {
    if !g.networksParse || |d.name| > 40 then None
    else Some(Pool(d.name, d.subblock, PlainLabels(d)[HASH := HashOf(g, d)], false))
  }

  /** A built pool has the desired name and subblock, bears the configured labels and those of the provisioner that
      they do not replace, is static unless they say otherwise, and carries a hash that a hash among the configured
      labels of a static pool does not change. */
  lemma BuiltPool(g: Provider, d: DesiredPool, other: string)
    requires Build(g, d).Some?
    ensures var e := Build(g, d).value;
            && e.name == d.name && e.subblock == d.subblock && !e.error
            && (forall k :: k in d.config.nodeLabels && k != "google.com/tpu-provisioner-nodepool-hash" ==>
                  k in e.labels && e.labels[k] == d.config.nodeLabels[k])
            && ("google.com/nodepool-manager" !in d.config.nodeLabels ==>
                  "google.com/nodepool-manager" in e.labels
                  && e.labels["google.com/nodepool-manager"] == "tpu-provisioner")
            && ("provisioner-nodepool-id" !in d.config.nodeLabels ==>
                  "provisioner-nodepool-id" in e.labels && e.labels["provisioner-nodepool-id"] == d.name)
            && (IsStatic(e.labels) <==> ("tpu-provisioner-static-nodepool" in d.config.nodeLabels ==>
                                           d.config.nodeLabels["tpu-provisioner-static-nodepool"] == "true"))
            && "google.com/tpu-provisioner-nodepool-hash" in e.labels
            && (IsStatic(e.labels) ==>
                  var d' := d.(config := d.config.(nodeLabels :=
                                d.config.nodeLabels["google.com/tpu-provisioner-nodepool-hash" := other]));
                  Build(g, d') == Some(e))
  {
    BuiltLabels(g, d);
    if IsStatic(PlainLabels(d)) { HashIgnoresItself(g, d, other); }
  }

  lemma BuiltLabels(g: Provider, d: DesiredPool)
    requires Build(g, d).Some?
    ensures var labels := Build(g, d).value.labels;
            && (forall k :: k in PlainLabels(d) && k != HASH ==> k in labels && labels[k] == PlainLabels(d)[k])
            && HASH in labels && STATIC in labels && labels[STATIC] == PlainLabels(d)[STATIC]
            && MANAGER in labels && labels[MANAGER] == PlainLabels(d)[MANAGER]
            && POOL_ID in labels && labels[POOL_ID] == PlainLabels(d)[POOL_ID]
  {
    assert STATIC[0] == 't' && HASH[0] == 'g' && POOL_ID[0] == 'p' && MANAGER[11] == 'n' && HASH[11] == 't';
  }

  lemma HashIgnoresItself(g: Provider, d: DesiredPool, other: string)
    requires IsStatic(PlainLabels(d))
    ensures Build(g, d.(config := d.config.(nodeLabels := d.config.nodeLabels[HASH := other]))) == Build(g, d)
  {
    var d' := d.(config := d.config.(nodeLabels := d.config.nodeLabels[HASH := other]));
    assert STATIC[0] == 't' && HASH[0] == 'g';
    assert PlainLabels(d') == PlainLabels(d)[HASH := other];
    assert PlainLabels(d') - {HASH} == PlainLabels(d) - {HASH};
    assert PlainLabels(d')[HASH := HashOf(g, d)] == PlainLabels(d)[HASH := HashOf(g, d)];
  }

  function PoolIndex(existing: seq<Pool>): map<string, Pool> {
    if existing == [] then map[]
    else PoolIndex(existing[..|existing| - 1])[existing[|existing| - 1].name := existing[|existing| - 1]]
  }

  predicate DistinctPools(existing: seq<Pool>) {
    forall i, j :: 0 <= i < j < |existing| ==> existing[i].name != existing[j].name
  }

  /** `listed` is a complete and current list of the pools. */
  predicate Lists(pools: map<string, Pool>, listed: seq<Pool>) {
    && DistinctPools(listed)
    && (forall e :: e in listed ==> e.name in pools && pools[e.name] == e)
    && (forall n :: n in pools ==> pools[n] in listed)
  }

  lemma {:induction false} PoolIndexMembers(existing: seq<Pool>)
    ensures forall n :: n in PoolIndex(existing) ==>
              PoolIndex(existing)[n] in existing && PoolIndex(existing)[n].name == n
    ensures forall e :: e in existing ==> e.name in PoolIndex(existing)
  {
    if existing != [] { PoolIndexMembers(existing[..|existing| - 1]); }
  }

  /** The lookup map of a complete list is the store itself. */
  lemma ListedIndex(pools: map<string, Pool>, listed: seq<Pool>)
    requires Lists(pools, listed) && forall n :: n in pools ==> pools[n].name == n
    ensures PoolIndex(listed) == pools
  {
    PoolIndexMembers(listed);
  }

  // ---- The comparison ----

  datatype Need = Absent | InError | Changed | Fine

  predicate RecreatesOnError(d: DesiredPool) {
    d.config.recreateOnError.None? || d.config.recreateOnError.value
  }

  function NeedOf(g: Provider, d: DesiredPool, index: map<string, Pool>): Need {
    if d.name !in index then Absent
    else
      var e := index[d.name];
      if e.error && RecreatesOnError(d) then InError
      else if HASH in e.labels && e.labels[HASH] != HashOf(g, d) then Changed
      else Fine
  }

  datatype Diff = Diff(create: seq<DesiredPool>, missing: seq<string>, update: seq<string>, error: seq<string>)

  function NamesNeeding(g: Provider, desired: seq<DesiredPool>, index: map<string, Pool>, need: Need): seq<string> {
    if desired == [] then []
    else
      var before := NamesNeeding(g, desired[..|desired| - 1], index, need);
      var d := desired[|desired| - 1];
      if NeedOf(g, d, index) == need then before + [d.name] else before
  }

  function ToCreate(g: Provider, desired: seq<DesiredPool>, index: map<string, Pool>): seq<DesiredPool> {
    if desired == [] then []
    else
      var before := ToCreate(g, desired[..|desired| - 1], index);
      var d := desired[|desired| - 1];
      if NeedOf(g, d, index).Fine? then before else before + [d]
  }

  function MissingFrom(desired: set<string>, existing: seq<Pool>): seq<string> {
    if existing == [] then []
    else
      var before := MissingFrom(desired, existing[..|existing| - 1]);
      var e := existing[|existing| - 1];
      if IsStatic(e.labels) && e.name !in desired then before + [e.name] else before
  }

  function DesiredNames(desired: seq<DesiredPool>): set<string> {
    set d | d in desired :: d.name
  }

  predicate AllBuild(g: Provider, desired: seq<DesiredPool>) {
    forall d :: d in desired ==> Build(g, d).Some?
  }

  function DiffPools(g: Provider, existing: seq<Pool>, desired: seq<DesiredPool>): Option<Diff> {
    if !AllBuild(g, desired) then None
    else
      var index := PoolIndex(existing);
      Some(Diff(ToCreate(g, desired, index), MissingFrom(DesiredNames(desired), existing),
                NamesNeeding(g, desired, index, Changed), NamesNeeding(g, desired, index, InError)))
  }

  method IndexPools(existing: seq<Pool>) returns (index: map<string, Pool>)
    ensures index == PoolIndex(existing)
  {
    index := map[];
    for i := 0 to |existing|
      invariant index == PoolIndex(existing[..i])
    {
      assert existing[..i + 1][..i] == existing[..i];
      index := index[existing[i].name := existing[i]];
    }
    assert existing[..|existing|] == existing;
  }

  method DiffStaticNodePools(g: Provider, existing: seq<Pool>, desired: seq<DesiredPool>) returns (r: Option<Diff>)
    ensures r == DiffPools(g, existing, desired)
  {
    var index := IndexPools(existing);
    var names: set<string> := {};
    for i := 0 to |desired|
      invariant names == DesiredNames(desired[..i])
    {
      assert desired[..i + 1] == desired[..i] + [desired[i]];
      names := names + {desired[i].name};
    }
    assert desired[..|desired|] == desired;
    var built, create, update, error := CreateOrUpdate(g, index, desired);
    if !built { return None; }
    var missing: seq<string> := [];
    for i := 0 to |existing|
      invariant missing == MissingFrom(names, existing[..i])
    {
      var e := existing[i];
      assert existing[..i + 1][..i] == existing[..i];
      if !IsStatic(e.labels) { continue; }
      if e.name !in names { missing := missing + [e.name]; }
    }
    assert existing[..|existing|] == existing;
    return Some(Diff(create, missing, update, error));
  }

  /** The loop over the desired pools. */
  method CreateOrUpdate(g: Provider, index: map<string, Pool>, desired: seq<DesiredPool>)
    returns (built: bool, create: seq<DesiredPool>, update: seq<string>, error: seq<string>)
    ensures built <==> AllBuild(g, desired)
    ensures built ==> create == ToCreate(g, desired, index)
                      && update == NamesNeeding(g, desired, index, Changed)
                      && error == NamesNeeding(g, desired, index, InError)
  {
    create, update, error := [], [], [];
    for i := 0 to |desired|
      invariant AllBuild(g, desired[..i])
      invariant create == ToCreate(g, desired[..i], index)
      invariant update == NamesNeeding(g, desired[..i], index, Changed)
      invariant error == NamesNeeding(g, desired[..i], index, InError)
    {
      var d := desired[i];
      assert desired[..i + 1][..i] == desired[..i];
      var pool := Build(g, d);
      if pool.None? {
        assert d in desired;
        return false, create, update, error;
      }
      var hash := pool.value.labels[HASH];
      if d.name !in index {
        create := create + [d];
        continue;
      }
      var e := index[d.name];
      var recreateOnError := true;
      if d.config.recreateOnError.Some? { recreateOnError := d.config.recreateOnError.value; }
      if e.error && recreateOnError {
        error := error + [d.name];
        create := create + [d];
        continue;
      }
      if HASH in e.labels && e.labels[HASH] != hash {
        update := update + [d.name];
        create := create + [d];
      }
    }
    assert desired[..|desired|] == desired;
    built := true;
  }

  lemma {:induction false} DiffMembers(g: Provider, desired: seq<DesiredPool>, index: map<string, Pool>)
    ensures forall d :: d in ToCreate(g, desired, index) <==> d in desired && !NeedOf(g, d, index).Fine?
    ensures forall need, n :: n in NamesNeeding(g, desired, index, need) <==>
                              exists d :: d in desired && d.name == n && NeedOf(g, d, index) == need
  {
    if desired != [] {
      var init, last := desired[..|desired| - 1], desired[|desired| - 1];
      assert desired == init + [last];
      DiffMembers(g, init, index);
    }
  }

  lemma {:induction false} MissingMembers(names: set<string>, existing: seq<Pool>)
    ensures forall n :: n in MissingFrom(names, existing) <==>
                        n !in names && exists e :: e in existing && e.name == n && IsStatic(e.labels)
  {
    if existing != [] {
      var init, last := existing[..|existing| - 1], existing[|existing| - 1];
      assert existing == init + [last];
      MissingMembers(names, init);
    }
  }

  // ---- What the comparison means, without its lookup map ----

  /** The pool is in ERROR and may be recreated for it. */
  predicate Broken(d: DesiredPool, e: Pool) { e.error && d.config.recreateOnError != Some(false) }

  /** The pool carries a hash, and not the one a pool built for `d` would carry. */
  predicate Outdated(g: Provider, d: DesiredPool, e: Pool)
    requires Build(g, d).Some?
  {
    "google.com/tpu-provisioner-nodepool-hash" in e.labels
    && e.labels["google.com/tpu-provisioner-nodepool-hash"]
       != Build(g, d).value.labels["google.com/tpu-provisioner-nodepool-hash"]
  }

  /** The pool is there and will be left as it is. A pool without a hash is taken for one of an older version. */
  predicate Fits(g: Provider, pools: map<string, Pool>, d: DesiredPool)
    requires Build(g, d).Some?
  {
    d.name in pools && !Broken(d, pools[d.name]) && !Outdated(g, d, pools[d.name])
  }

  lemma NeedExactly(g: Provider, d: DesiredPool, index: map<string, Pool>)
    requires Build(g, d).Some?
    ensures NeedOf(g, d, index).Absent? <==> d.name !in index
    ensures NeedOf(g, d, index).InError? <==> d.name in index && Broken(d, index[d.name])
    ensures NeedOf(g, d, index).Changed? <==>
            d.name in index && !Broken(d, index[d.name]) && Outdated(g, d, index[d.name])
    ensures NeedOf(g, d, index).Fine? <==> Fits(g, index, d)
  {
  }

  lemma IndexOf(existing: seq<Pool>, e: Pool)
    requires DistinctPools(existing) && e in existing
    ensures e.name in PoolIndex(existing) && PoolIndex(existing)[e.name] == e
  {
    PoolIndexMembers(existing);
  }

  /** The comparison fails exactly when some desired pool cannot be built: its name is too long, or the
      additional networks do not parse. */
  lemma DiffFailsIff(g: Provider, existing: seq<Pool>, desired: seq<DesiredPool>)
    ensures DiffPools(g, existing, desired).None? <==>
            exists d :: d in desired && (!g.networksParse || |d.name| > 40)
  {
  }

  /** Otherwise the lists hold exactly: to be created, the desired pools whose name no listed pool has, or one
      that is broken or outdated; in error, the broken ones; to be updated, those outdated but not broken;
      missing, the static ones whose name is not desired. */
  lemma DiffExactly(g: Provider, existing: seq<Pool>, desired: seq<DesiredPool>)
    requires DistinctPools(existing) && DiffPools(g, existing, desired).Some?
    ensures var diff := DiffPools(g, existing, desired).value;
            && (forall d :: d in diff.create <==>
                  d in desired && forall e :: e in existing && e.name == d.name ==> Broken(d, e) || Outdated(g, d, e))
            && (forall n :: n in diff.error <==>
                  exists d, e :: d in desired && e in existing && d.name == e.name == n && Broken(d, e))
            && (forall n :: n in diff.update <==>
                  exists d, e :: d in desired && e in existing && d.name == e.name == n
                                 && !Broken(d, e) && Outdated(g, d, e))
            && (forall n :: n in diff.missing <==>
                  (exists e :: e in existing && e.name == n && "tpu-provisioner-static-nodepool" in e.labels
                               && e.labels["tpu-provisioner-static-nodepool"] == "true")
                  && forall d :: d in desired ==> d.name != n)
  {
    var index := PoolIndex(existing);
    PoolIndexMembers(existing);
    DiffMembers(g, desired, index);
    MissingMembers(DesiredNames(desired), existing);
    forall d | d in desired
      ensures forall e :: e in existing && e.name == d.name ==> d.name in index && index[d.name] == e
      ensures d.name in index ==> index[d.name] in existing && index[d.name].name == d.name
      ensures NeedOf(g, d, index).Absent? <==> d.name !in index
      ensures NeedOf(g, d, index).InError? <==> d.name in index && Broken(d, index[d.name])
      ensures NeedOf(g, d, index).Changed? <==>
              d.name in index && !Broken(d, index[d.name]) && Outdated(g, d, index[d.name])
    {
      NeedExactly(g, d, index);
      forall e | e in existing && e.name == d.name ensures d.name in index && index[d.name] == e {
        IndexOf(existing, e);
      }
    }
  }

  // ---- Pools in use ----

  const PARTITION_PREFIX := "cloud.google.com/gke-tpu-partition-"

  predicate IsPartitionIdLabel(key: string) {
    |key| > 38 && key[..35] == PARTITION_PREFIX && key[|key| - 3..] == "-id"
  }

  predicate Uses(slices: seq<Slice>, id: string) {
    exists s :: s in slices && id in s.partitions
  }

  predicate NodeInUse(slices: seq<Slice>, labels: map<string, string>) {
    exists k :: k in labels && IsPartitionIdLabel(k) && Uses(slices, labels[k])
  }

  /** A pool is in use when one of its nodes carries a partition that some slice uses. */
  function InUse(slices: seq<Slice>, nodes: seq<map<string, string>>): set<string> {
    set node | node in nodes && POOL_NAME in node && NodeInUse(slices, node) :: node[POOL_NAME]
  }

  /** Partition labels are those with this prefix and suffix and something between them. */
  lemma PartitionLabels(key: string)
    ensures IsPartitionIdLabel(key) <==>
            exists middle :: middle != "" && key == "cloud.google.com/gke-tpu-partition-" + middle + "-id"
  {
    if IsPartitionIdLabel(key) {
      var middle := key[35..|key| - 3];
      assert key == "cloud.google.com/gke-tpu-partition-" + middle + "-id";
    }
    if middle :| middle != "" && key == "cloud.google.com/gke-tpu-partition-" + middle + "-id" {
      assert key[..35] == PARTITION_PREFIX && key[|key| - 3..] == "-id";
    }
  }

  /** A pool is in use exactly when some node of it carries, under such a label, a partition of some slice. */
  lemma InUseExactly(slices: seq<Slice>, nodes: seq<map<string, string>>, n: string)
    ensures n in InUse(slices, nodes) <==>
            exists node, key, s :: node in nodes && "cloud.google.com/gke-nodepool" in node
                                   && node["cloud.google.com/gke-nodepool"] == n
                                   && key in node && IsPartitionIdLabel(key)
                                   && s in slices && node[key] in s.partitions
  {
    if n in InUse(slices, nodes) {
      var node :| node in nodes && POOL_NAME in node && NodeInUse(slices, node) && node[POOL_NAME] == n;
      var key :| key in node && IsPartitionIdLabel(key) && Uses(slices, node[key]);
    }
    forall node, key, s | node in nodes && POOL_NAME in node && node[POOL_NAME] == n && key in node
                          && IsPartitionIdLabel(key) && s in slices && node[key] in s.partitions
      ensures n in InUse(slices, nodes)
    {
      assert Uses(slices, node[key]) && NodeInUse(slices, node);
    }
  }

  /** The labels of a node are visited in any order, up to the first used partition. */
  method GetInUseNodepools(slices: seq<Slice>, nodes: seq<map<string, string>>) returns (inUse: set<string>)
    ensures inUse == InUse(slices, nodes)
  {
    var used: set<string> := {};
    for i := 0 to |slices|
      invariant forall id :: id in used <==> Uses(slices[..i], id)
    {
      var s := slices[i];
      assert slices[..i + 1] == slices[..i] + [s];
      for j := 0 to |s.partitions|
        invariant forall id :: id in used <==> Uses(slices[..i], id) || id in s.partitions[..j]
      {
        assert s.partitions[..j + 1] == s.partitions[..j] + [s.partitions[j]];
        used := used + {s.partitions[j]};
      }
      assert s.partitions[..|s.partitions|] == s.partitions;
    }
    assert slices[..|slices|] == slices;
    inUse := {};
    for i := 0 to |nodes|
      invariant inUse == InUse(slices, nodes[..i])
    {
      var node := nodes[i];
      assert nodes[..i + 1] == nodes[..i] + [node];
      if POOL_NAME !in node { continue; }
      var found := AnyUsedPartition(slices, used, node);
      if found { inUse := inUse + {node[POOL_NAME]}; }
    }
    assert nodes[..|nodes|] == nodes;
  }

  method AnyUsedPartition(ghost slices: seq<Slice>, used: set<string>, node: map<string, string>) returns (found: bool)
    requires forall id :: id in used <==> Uses(slices, id)
    ensures found <==> NodeInUse(slices, node)
  {
    var left := node.Keys;
    while left != {}
      invariant left <= node.Keys
      invariant forall k :: k in node && k !in left ==> !(IsPartitionIdLabel(k) && Uses(slices, node[k]))
      decreases left
    {
      var k :| k in left;
      left := left - {k};
      if IsPartitionIdLabel(k) && node[k] in used { return true; }
    }
    return false;
  }

  /** The nodes the reconciler lists: those that carry the static label. */
  function Selected(nodes: seq<map<string, string>>): seq<map<string, string>> {
    Filter(nodes, (node: map<string, string>) => IsStatic(node))
  }

  /** The pools the reconciler takes for being in use. */
  function Locks(slices: seq<Slice>, nodes: seq<map<string, string>>): set<string> {
    InUse(slices, Selected(nodes))
  }

  /** It sees the use of a pool exactly as it is when all nodes of the pool carry the label. */
  lemma LabelledNodesAreSeen(slices: seq<Slice>, nodes: seq<map<string, string>>, n: string)
    requires forall node :: node in nodes && POOL_NAME in node && node[POOL_NAME] == n ==> IsStatic(node)
    ensures n in Locks(slices, nodes) <==> n in InUse(slices, nodes)
  {
    if n in InUse(slices, nodes) {
      var node :| node in nodes && POOL_NAME in node && NodeInUse(slices, node) && node[POOL_NAME] == n;
      assert node in Selected(nodes);
    }
  }

  // ---- The lock filter ----

  /** The four work lists of a pass after locked pools are taken out. */
  datatype WorkLists = WorkLists(missing: seq<string>, error: seq<string>, update: seq<string>,
                                 create: seq<DesiredPool>)

  predicate Locked(diff: Diff, inUse: set<string>, n: string) {
    n in inUse && (n in diff.missing || n in diff.update)
  }

  /** The subblocks that locked pools keep. */
  function KeptCapacity(diff: Diff, inUse: set<string>, index: map<string, Pool>): set<string> {
    set n | n in index && Locked(diff, inUse, n) :: index[n].subblock
  }

  predicate MayCreate(diff: Diff, inUse: set<string>, index: map<string, Pool>, d: DesiredPool) {
    !(d.name in diff.update && d.name in inUse) && d.subblock !in KeptCapacity(diff, inUse, index)
  }

  function PlanOf(diff: Diff, inUse: set<string>, index: map<string, Pool>): WorkLists {
    WorkLists(Unused(diff.missing, inUse), diff.error, Unused(diff.update, inUse),
              Filter(diff.create, d => MayCreate(diff, inUse, index, d)))
  }

  /** The subblocks of those listed pools in `names` that are in use. */
  function CapacityOf(names: seq<string>, inUse: set<string>, index: map<string, Pool>): set<string> {
    set n | n in index && n in names && n in inUse :: index[n].subblock
  }

  lemma CapacitySnoc(names: seq<string>, name: string, inUse: set<string>, index: map<string, Pool>)
    ensures CapacityOf(names + [name], inUse, index) ==
            CapacityOf(names, inUse, index) + (if name in inUse && name in index then {index[name].subblock} else {})
  {
    forall c | c in CapacityOf(names, inUse, index) ensures c in CapacityOf(names + [name], inUse, index) {
      var n :| n in index && n in names && n in inUse && index[n].subblock == c;
      assert n in names + [name];
    }
    if name in inUse && name in index { assert name in names + [name]; }
  }

  function Unused(names: seq<string>, inUse: set<string>): seq<string> { Filter(names, n => n !in inUse) }

  function Used(names: seq<string>, inUse: set<string>): set<string> { set n | n in names && n in inUse }

  lemma UnusedSnoc(names: seq<string>, name: string, inUse: set<string>)
    ensures Unused(names + [name], inUse) == Unused(names, inUse) + (if name in inUse then [] else [name])
    ensures Used(names + [name], inUse) == Used(names, inUse) + (if name in inUse then {name} else {})
  {
    FilterSnoc(names, name, n => n !in inUse);
  }

  method FilterLocked(pools: seq<string>, inUse: set<string>, index: map<string, Pool>, capacity0: set<string>)
    returns (filtered: seq<string>, skipped: set<string>, capacity: set<string>)
    ensures filtered == Unused(pools, inUse) && skipped == Used(pools, inUse)
    ensures capacity == capacity0 + CapacityOf(pools, inUse, index)
  {
    filtered, skipped, capacity := [], {}, capacity0;
    for i := 0 to |pools|
      invariant filtered == Unused(pools[..i], inUse) && skipped == Used(pools[..i], inUse)
      invariant capacity == capacity0 + CapacityOf(pools[..i], inUse, index)
    {
      var name := pools[i];
      CapacitySnoc(pools[..i], name, inUse, index);
      UnusedSnoc(pools[..i], name, inUse);
      assert pools[..i + 1] == pools[..i] + [name];
      if name in inUse {
        skipped := skipped + {name};
        if name in index { capacity := capacity + {index[name].subblock}; }
        continue;
      }
      filtered := filtered + [name];
    }
    assert pools[..|pools|] == pools;
  }

  /** The filtering part of the static reconcile, after the comparison. `nodes` are all nodes. */
  method PlanPass(diff: Diff, existing: seq<Pool>, slices: seq<Slice>, nodes: seq<map<string, string>>)
    returns (plan: WorkLists)
    ensures plan == PlanOf(diff, Locks(slices, nodes), PoolIndex(existing))
  {
    var missing, update := diff.missing, diff.update;
    var skippedUpdates: set<string>, skippedCapacity: set<string> := {}, {};
    ghost var locks, pools := Locks(slices, nodes), PoolIndex(existing);
    if |missing| > 0 || |update| > 0 {
      var inUse := GetInUseNodepools(slices, Selected(nodes));
      var index := IndexPools(existing);
      var untracked;
      missing, untracked, skippedCapacity := FilterLocked(missing, inUse, index, {});
      update, skippedUpdates, skippedCapacity := FilterLocked(update, inUse, index, skippedCapacity);
    }
    assert skippedCapacity == KeptCapacity(diff, locks, pools);
    var create := FilterCreates(diff.create, skippedUpdates, skippedCapacity);
    FilterSame(diff.create, (d: DesiredPool) => d.name !in skippedUpdates && d.subblock !in skippedCapacity,
               (d: DesiredPool) => MayCreate(diff, locks, pools, d));
    plan := WorkLists(missing, diff.error, update, create);
  }

  lemma {:induction false} FilterSame<T(!new)>(s: seq<T>, p: T -> bool, q: T -> bool)
    requires forall x :: p(x) == q(x)
    ensures Filter(s, p) == Filter(s, q)
  {
    if s != [] { FilterSame(s[1..], p, q); }
  }

  method FilterCreates(create: seq<DesiredPool>, skippedUpdates: set<string>, skippedCapacity: set<string>)
    returns (filtered: seq<DesiredPool>)
    ensures filtered == Filter(create, (d: DesiredPool) => d.name !in skippedUpdates && d.subblock !in skippedCapacity)
  {
    ghost var allowed := (d: DesiredPool) => d.name !in skippedUpdates && d.subblock !in skippedCapacity;
    filtered := [];
    for i := 0 to |create|
      invariant filtered == Filter(create[..i], allowed)
    {
      var d := create[i];
      assert create[..i + 1] == create[..i] + [d];
      FilterSnoc(create[..i], d, allowed);
      if d.name in skippedUpdates { continue; }
      if d.subblock in skippedCapacity { continue; }
      filtered := filtered + [d];
    }
    assert create[..|create|] == create;
  }

  /** What the filter leaves: deletes of pools not in use, all deletes of pools in error, and those creates whose
      own update goes ahead and whose subblock no pool keeps that is in use and was to be deleted. */
  lemma PlanExactly(diff: Diff, inUse: set<string>, existing: seq<Pool>)
    requires DistinctPools(existing)
    ensures var plan := PlanOf(diff, inUse, PoolIndex(existing));
            && (forall n :: n in plan.missing <==> n in diff.missing && n !in inUse)
            && (forall n :: n in plan.update <==> n in diff.update && n !in inUse)
            && plan.error == diff.error
            && (forall d :: d in plan.create <==>
                  && d in diff.create
                  && (d.name in diff.update ==> d.name !in inUse)
                  && (forall e :: e in existing && e.subblock == d.subblock && e.name in inUse ==>
                        e.name !in diff.missing && e.name !in diff.update))
  {
    PoolIndexMembers(existing);
    forall e | e in existing ensures e.name in PoolIndex(existing) && PoolIndex(existing)[e.name] == e {
      IndexOf(existing, e);
    }
  }

  /** Lock safety: a pool the reconciler takes for being in use is on a delete list of the pass exactly when
      it is desired, in ERROR and to be recreated on error. */
  lemma LockedPoolsSurvive(g: Provider, existing: seq<Pool>, desired: seq<DesiredPool>, inUse: set<string>, n: string)
    requires DiffPools(g, existing, desired).Some? && n in inUse
    ensures OnDeleteList(PlanOf(DiffPools(g, existing, desired).value, inUse, PoolIndex(existing)), n) <==>
            InErrorAndDesired(g, existing, desired, n)
  {
    DiffMembers(g, desired, PoolIndex(existing));
  }

  predicate OnDeleteList(plan: WorkLists, n: string) { n in plan.missing || n in plan.update || n in plan.error }

  predicate InErrorAndDesired(g: Provider, existing: seq<Pool>, desired: seq<DesiredPool>, n: string) {
    exists d :: d in desired && d.name == n && NeedOf(g, d, PoolIndex(existing)).InError?
  }

  /** Exactly which pools a pass plans to delete, for the slices and nodes it has listed: those desired and in
      ERROR, and those missing from the configuration or changed that no labelled node shows in use. */
  lemma PoolIsDeletedIff(g: Provider, existing: seq<Pool>, desired: seq<DesiredPool>, slices: seq<Slice>,
                         nodes: seq<map<string, string>>, n: string)
    requires DiffPools(g, existing, desired).Some?
    ensures var diff := DiffPools(g, existing, desired).value;
            OnDeleteList(PlanOf(diff, Locks(slices, nodes), PoolIndex(existing)), n) <==>
            || InErrorAndDesired(g, existing, desired, n)
            || ((n in diff.missing || n in diff.update) && n !in Locks(slices, nodes))
  {
    DiffMembers(g, desired, PoolIndex(existing));
  }

  /** So a pool in use can be deleted: one that bears a desired name with another hash, and is in use through a
      node without the static label. */
  lemma UnlabelledPoolInUseIsDeleted(g: Provider, d: DesiredPool, e: Pool, s: Slice, id: string)
    requires Build(g, d).Some? && e.name == d.name && !e.error && HASH in e.labels && e.labels[HASH] != HashOf(g, d)
    requires id in s.partitions
    ensures var node := map[POOL_NAME := e.name, PARTITION_PREFIX + "4x4x4-id" := id];
            var diff := DiffPools(g, [e], [d]).value;
            && e.name in InUse([s], [node])
            && e.name in PlanOf(diff, Locks([s], [node]), PoolIndex([e])).update
  {
    var key := PARTITION_PREFIX + "4x4x4-id";
    var node := map[POOL_NAME := e.name, key := id];
    assert key[..35] == PARTITION_PREFIX && key[|key| - 3..] == "-id";
    assert key in node && IsPartitionIdLabel(key) && s in [s];
    assert NodeInUse([s], node) && node in [node];
    assert !IsStatic(node) by { assert STATIC[0] == 't' && key[0] == 'c' == POOL_NAME[0]; }
    DiffMembers(g, [d], PoolIndex([e]));
    assert [e][..0] == [] && PoolIndex([e]) == map[e.name := e];
    assert d in [d] && NeedOf(g, d, PoolIndex([e])).Changed?;
  }
}
