/** Which pools in use a static pass deletes, in every run: with slices and nodes that come and go while the
    pass is at work (internal/controller/static_nodepool_controller.go). */
module StaticLocks {
  import opened Slices
  import opened NodePools
  import opened StaticRun

  // ---- What a pass deletes was planned ----

  /** The items of a running pass are those of its plan. */
  predicate Planned(g: Provider, w: World) {
    w.pass.Running? ==>
      && HasPlan(g, w.pass.b)
      && forall x :: x in w.pass.todo ==> x in Items(PlanFor(g, w.pass.b), w.pass.stage)
  }

  lemma EventKeepsPlanned(g: Provider, w: World, e: Event)
    requires Planned(g, w)
    ensures Planned(g, Do(g, w, e))
  {
    if e.Attempt? && w.pass.Running? && e.k < |w.pass.todo| { RemainingItems(w.pass.todo, e.k); }
  }

  lemma {:induction false} RunKeepsPlanned(g: Provider, w: World, es: seq<Event>)
    requires Planned(g, w)
    ensures Planned(g, Run(g, w, es))
    decreases |es|
  {
    if es != [] {
      EventKeepsPlanned(g, w, es[0]);
      RunKeepsPlanned(g, Do(g, w, es[0]), es[1..]);
    }
  }

  /** The event is an attempt of the running pass that takes pool `n` away. */
  predicate Deletes(g: Provider, w: World, e: Event, n: string) {
    e.Attempt? && n in w.pools && n !in Do(g, w, e).pools
  }

  lemma DeletedIsPlanned(g: Provider, w: World, e: Event, n: string)
    requires Planned(g, w) && Deletes(g, w, e, n)
    ensures w.pass.Running? && HasPlan(g, w.pass.b) && OnDeleteList(PlanFor(g, w.pass.b), n)
  {
    var plan, stage := PlanFor(g, w.pass.b), w.pass.stage;
    assert w.pass.todo[e.k] in w.pass.todo;
    assert DeletePool(n) in Items(plan, stage);
    NotInBatch(plan, n);
    MakeItemsMake(plan.create);
  }

  lemma MakeItemsMake(create: seq<DesiredPool>)
    ensures forall x :: x in MakeItems(create) ==> x.MakePool?
  {
    forall x | x in MakeItems(create) ensures x.MakePool? {
      var k :| 0 <= k < |create| && MakeItems(create)[k] == x;
    }
  }

  // ---- Deleted while in use ----

  predicate UsedNow(w: World, n: string) { n in InUse(w.slices, w.nodes) }

  /** The pool was listed in ERROR, is desired, and is to be recreated on error. */
  predicate WasInError(g: Provider, b: Begin, n: string) { InErrorAndDesired(g, b.listed, b.desired, n) }

  /** When the pass listed slices and nodes, the pool was in use, but through nodes without the static label
      only. */
  predicate WasUsedUnlabelled(b: Begin, n: string) { n in InUse(b.slices, b.nodes) && n !in LocksAt(b) }

  /** By the slices and nodes the pass listed, the pool was not in use. */
  predicate WasUnused(b: Begin, n: string) { n !in InUse(b.slices, b.nodes) }

  /** Lock safety: in every run, a pool that a pass deletes while it is in use was in ERROR, or was used through
      unlabelled nodes only, or has come into use since the pass looked. */
  lemma DeletedWhileUsed(g: Provider, w: World, es: seq<Event>, e: Event, n: string)
    requires w.pass.Idle? && Deletes(g, Run(g, w, es), e, n) && UsedNow(Run(g, w, es), n)
    ensures var pass := Run(g, w, es).pass;
            pass.Running? && (WasInError(g, pass.b, n) || WasUsedUnlabelled(pass.b, n) || WasUnused(pass.b, n))
  {
    RunKeepsPlanned(g, w, es);
    DeletedIsPlanned(g, Run(g, w, es), e, n);
    var b := Run(g, w, es).pass.b;
    PoolIsDeletedIff(g, b.listed, b.desired, b.slices, b.nodes, n);
  }

  // ---- When nothing comes into use ----

  function UsedNodes(w: World): set<map<string, string>> {
    set node | node in w.nodes && NodeInUse(w.slices, node)
  }

  /** From the listing of the slices to the end of the pass, no node comes into use. */
  predicate BringsNoUse(g: Provider, w: World, e: Event) {
    w.pass.Looked? || w.pass.Running? ==> UsedNodes(Do(g, w, e)) <= UsedNodes(w)
  }

  predicate RunBringsNoUse(g: Provider, w: World, es: seq<Event>)
    decreases |es|
  {
    es == [] || (BringsNoUse(g, w, es[0]) && RunBringsNoUse(g, Do(g, w, es[0]), es[1..]))
  }

  /** Every node in use now was so for the pass when it looked. */
  predicate SeesAllUse(w: World) {
    match w.pass
    case Looked(_, _, slices) => forall node :: node in UsedNodes(w) ==> NodeInUse(slices, node)
    case Running(b, _, _, _) => forall node :: node in UsedNodes(w) ==> node in b.nodes && NodeInUse(b.slices, node)
    case _ => true
  }

  lemma EventKeepsSight(g: Provider, w: World, e: Event)
    requires SeesAllUse(w) && BringsNoUse(g, w, e)
    ensures SeesAllUse(Do(g, w, e))
  {
    var w' := Do(g, w, e);
    if e.LookAtSlices? || e.LookAtNodes? { assert UsedNodes(w') == UsedNodes(w); }
  }

  lemma {:induction false} RunKeepsSight(g: Provider, w: World, es: seq<Event>)
    requires SeesAllUse(w) && RunBringsNoUse(g, w, es)
    ensures SeesAllUse(Run(g, w, es))
    decreases |es|
  {
    if es != [] {
      EventKeepsSight(g, w, es[0]);
      RunKeepsSight(g, Do(g, w, es[0]), es[1..]);
    }
  }

  /** If no node comes into use between the listing of the slices and the delete, the third case is out. */
  lemma DeletedWhileUsedBefore(g: Provider, w: World, es: seq<Event>, e: Event, n: string)
    requires w.pass.Idle? && Deletes(g, Run(g, w, es), e, n) && UsedNow(Run(g, w, es), n)
    requires RunBringsNoUse(g, w, es)
    ensures var pass := Run(g, w, es).pass;
            pass.Running? && (WasInError(g, pass.b, n) || WasUsedUnlabelled(pass.b, n))
  {
    DeletedWhileUsed(g, w, es, e, n);
    RunKeepsSight(g, w, es);
    var v := Run(g, w, es);
    var node :| node in v.nodes && POOL_NAME in node && NodeInUse(v.slices, node) && node[POOL_NAME] == n;
    assert node in UsedNodes(v);
  }

  /** So with labelled nodes only, and none coming into use meanwhile, a pass deletes no pool in use but those
      in ERROR. */
  lemma LabelledPoolsAreSafe(g: Provider, w: World, es: seq<Event>, e: Event, n: string)
    requires w.pass.Idle? && Deletes(g, Run(g, w, es), e, n) && UsedNow(Run(g, w, es), n)
    requires RunBringsNoUse(g, w, es)
    requires var pass := Run(g, w, es).pass;
             pass.Running? ==>
               forall node :: node in pass.b.nodes && POOL_NAME in node && node[POOL_NAME] == n ==> IsStatic(node)
    ensures Run(g, w, es).pass.Running? && WasInError(g, Run(g, w, es).pass.b, n)
  {
    DeletedWhileUsedBefore(g, w, es, e, n);
    LabelledNodesAreSeen(Run(g, w, es).pass.b.slices, Run(g, w, es).pass.b.nodes, n);
  }

  // ---- The third case happens ----

  /** The labels of a node of pool `n` that carries partition `id` and the static label. */
  function LabelledNode(n: string, id: string): map<string, string> {
    map[POOL_NAME := n, PARTITION_PREFIX + "4x4x4-id" := id, STATIC := "true"]
  }

  lemma LabelledNodeIsUsed(n: string, s: Slice, id: string)
    requires id in s.partitions
    ensures n in InUse([s], [LabelledNode(n, id)]) && n in Locks([s], [LabelledNode(n, id)])
  {
    var key, node := PARTITION_PREFIX + "4x4x4-id", LabelledNode(n, id);
    assert key[..35] == PARTITION_PREFIX && key[|key| - 3..] == "-id";
    assert key[0] == 'c' && STATIC[0] == 't' && POOL_NAME[17] == 'g' && POOL_NAME[21] == 'n' && key[21] == 't';
    assert key in node && node[key] == id && IsPartitionIdLabel(key) && s in [s];
    assert NodeInUse([s], node) && node in [node] && POOL_NAME in node && node[POOL_NAME] == n;
    LabelledNodesAreSeen([s], [node], n);
  }

  /** What one pass has planned for a pool whose hash differs, when no slice is there yet. */
  lemma ChangedPoolIsPlanned(g: Provider, d: DesiredPool, e: Pool, nodes: seq<map<string, string>>)
    requires Build(g, d).Some? && e.name == d.name && !e.error && HASH in e.labels && e.labels[HASH] != HashOf(g, d)
    ensures var b := Begin([e], [d], [], nodes);
            HasPlan(g, b) && PlanFor(g, b).missing == [] && PlanFor(g, b).error == []
            && PlanFor(g, b).update == [e.name]
  {
    var b := Begin([e], [d], [], nodes);
    var index := PoolIndex([e]);
    assert [e][..|[e]| - 1] == [] && PoolIndex([]) == map[];
    assert index == map[e.name := e];
    assert [d][..0] == [] && NeedOf(g, d, index).Changed?;
    assert NamesNeeding(g, [d], index, Changed) == [d.name] && NamesNeeding(g, [d], index, InError) == [];
    assert d in [d] && e.name in DesiredNames([d]);
    assert MissingFrom(DesiredNames([d]), [e]) == [];
    assert e.name !in LocksAt(b);
    var diff := DiffPools(g, [e], [d]).value;
    assert diff == Diff(ToCreate(g, [d], index), [], [e.name], []);
    assert [e.name][1..] == [];
    assert Unused([e.name], LocksAt(b)) == [e.name] && Unused([], LocksAt(b)) == [];
  }

  /** A slice made after the pass has looked does not keep its pool: the pool is labelled, in use and not in
      ERROR, and the pass deletes it. */
  lemma LateSliceLosesItsPool(g: Provider, d: DesiredPool, e: Pool, s: Slice, id: string)
    requires Build(g, d).Some? && e.name == d.name && !e.error && HASH in e.labels && e.labels[HASH] != HashOf(g, d)
    requires id in s.partitions
    ensures var node := LabelledNode(e.name, id);
            var w := World(map[e.name := e], [], [node], Idle);
            var es := [Start([e], [d]), LookAtSlices, LookAtNodes, SliceAppears(s), Advance, Advance];
            var v := Run(g, w, es);
            && UsedNow(v, e.name) && e.name in Locks(v.slices, v.nodes) && !e.error
            && Deletes(g, v, Attempt(0, Applied), e.name)
  {
    var node := LabelledNode(e.name, id);
    var w := World(map[e.name := e], [], [node], Idle);
    var b := Begin([e], [d], [], [node]);
    ChangedPoolIsPlanned(g, d, e, [node]);
    LabelledNodeIsUsed(e.name, s, id);
    assert e in [e] && Lists(w.pools, [e]);
    LooksBegin(g, w, b);
    var w4 := w.(pass := Begun(g, b), slices := [s]);
    SliceComes(g, w.(pass := Begun(g, b)), s);
    TwoEmptyBatches(g, w4, b, e.name);
    SixEvents(g, w, Start([e], [d]), LookAtSlices, LookAtNodes, SliceAppears(s), Advance, Advance);
    AttemptDeletes(g, w4.(pass := Running(b, 2, [DeletePool(e.name)], false)), e.name);
  }

  lemma SliceComes(g: Provider, w: World, s: Slice)
    requires w.slices == []
    ensures Do(g, w, SliceAppears(s)) == w.(slices := [s])
  {
    assert [] + [s] == [s];
  }

  lemma AttemptDeletes(g: Provider, w: World, n: string)
    requires w.pass.Running? && w.pass.todo == [DeletePool(n)] && n in w.pools
    ensures Deletes(g, w, Attempt(0, Applied), n)
  {
  }

  /** A pass with nothing missing and nothing in ERROR comes to its updates at once. */
  lemma TwoEmptyBatches(g: Provider, w: World, b: Begin, n: string)
    requires HasPlan(g, b) && w.pass == Begun(g, b)
    requires PlanFor(g, b).missing == [] && PlanFor(g, b).error == [] && PlanFor(g, b).update == [n]
    ensures Do(g, Do(g, w, Advance), Advance) == w.(pass := Running(b, 2, [DeletePool(n)], false))
  {
    var plan := PlanFor(g, b);
    assert Items(plan, 0) == [] && Items(plan, 1) == [] && Items(plan, 2) == [DeletePool(n)];
  }

  lemma SixEvents(g: Provider, w: World, a: Event, b: Event, c: Event, d: Event, e: Event, f: Event)
    ensures Run(g, w, [a, b, c, d, e, f]) == Do(g, Do(g, Do(g, Do(g, Do(g, Do(g, w, a), b), c), d), e), f)
  {
    var es := [a, b, c, d, e, f];
    assert es[1..] == [b, c, d, e, f] && es[1..][1..] == [c, d, e, f];
    ThreeEvents(g, Do(g, Do(g, Do(g, w, a), b), c), d, e, f);
    assert [c, d, e, f][1..] == [d, e, f];
    var w1 := Do(g, w, a);
    var w2 := Do(g, w1, b);
    assert Run(g, w, es) == Run(g, w1, es[1..]) == Run(g, w2, [c, d, e, f]) == Run(g, Do(g, w2, c), [d, e, f]);
  }

  lemma ThreeEvents(g: Provider, w: World, a: Event, b: Event, c: Event)
    ensures Run(g, w, [a, b, c]) == Do(g, Do(g, Do(g, w, a), b), c)
  {
    assert [a, b, c][1..] == [b, c] && [b, c][1..] == [c] && [c][1..] == [];
    assert Run(g, Do(g, Do(g, w, a), b), [c]) == Do(g, Do(g, Do(g, w, a), b), c);
    assert Run(g, Do(g, w, a), [b, c]) == Run(g, Do(g, Do(g, w, a), b), [c]);
  }
}
