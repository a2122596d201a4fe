/** The static reconciler (internal/controller/static_nodepool_controller.go): its passes are runs of the
    machine of `StaticRun`, and one failure-free pass converges. */
module StaticPass {
  import opened Base
  import opened Slices
  import opened NodePools
  import opened Subblocks
  import opened StaticRun

  // ---- A pass, one batch after the other ----

  function FirstOutcome(script: seq<Outcome>): Outcome { if script == [] then Applied else script[0] }

  function OtherOutcomes(script: seq<Outcome>): seq<Outcome> { if script == [] then [] else script[1..] }

  function ItemName(x: Item): string {
    match x case DeletePool(n) => n case MakePool(d) => d.name
  }

  /** After a batch: the pools, the items that failed, in order, and the outcomes still to come. */
  datatype BatchEnd = BatchEnd(pools: Pools, failed: seq<string>, script: seq<Outcome>)

  datatype End = End(pools: Pools, ok: bool, script: seq<Outcome>)

  /** Every item is attempted. */
  function Batch(g: Provider, pools: Pools, items: seq<Item>, script: seq<Outcome>): BatchEnd
    decreases |items|
  {
    if items == [] then BatchEnd(pools, [], script)
    else
      var (pools', succeeded) := Perform(g, pools, items[0], FirstOutcome(script));
      var rest := Batch(g, pools', items[1..], OtherOutcomes(script));
      rest.(failed := (if succeeded then [] else [ItemName(items[0])]) + rest.failed)
  }

  /** A failed item ends the pass after its batch. */
  function Batches(g: Provider, pools: Pools, plan: WorkLists, stage: nat, script: seq<Outcome>): End
    decreases CREATES + 1 - stage
  {
    if stage > CREATES then End(pools, true, script)
    else
      var e := Batch(g, pools, Items(plan, stage), script);
      if e.failed != [] then End(e.pools, false, e.script) else Batches(g, e.pools, plan, stage + 1, e.script)
  }

  function WholePass(g: Provider, pools: Pools, b: Begin, script: seq<Outcome>): End {
    if !Lists(pools, b.listed) || !HasPlan(g, b) then End(pools, false, script)
    else Batches(g, pools, PlanFor(g, b), 0, script)
  }

  lemma Regroup(a: seq<string>, b: seq<string>, c: seq<string>)
    ensures a + (b + c) == (a + b) + c && a + [] == a
  {
  }

  // ---- The reconciler ----

  class StaticReconciler {
    const provider: Provider
    var pools: Pools
    var script: seq<Outcome>

    constructor (provider: Provider, pools: Pools, script: seq<Outcome>)
      ensures this.provider == provider && this.pools == pools && this.script == script
    {
      this.provider, this.pools, this.script := provider, pools, script;
    }

    method DeleteNodePool(name: string) returns (ok: bool)
      modifies this
      ensures (pools, ok) == Perform(provider, old(pools), DeletePool(name), FirstOutcome(old(script)))
      ensures script == OtherOutcomes(old(script))
    {
      var o := FirstOutcome(script);
      script := OtherOutcomes(script);
      if o.Refused? { return false; }
      pools := pools - {name};
      return o.Applied?;
    }

    /** Builds the pool, checks that it does not exist, and creates it. */
    method EnsureNodePool(d: DesiredPool) returns (ok: bool)
      modifies this
      ensures (pools, ok) == Perform(provider, old(pools), MakePool(d), FirstOutcome(old(script)))
      ensures script == OtherOutcomes(old(script))
    {
      var o := FirstOutcome(script);
      script := OtherOutcomes(script);
      var built := Build(provider, d);
      if built.None? || o.Refused? { return false; }
      if d.name !in pools { pools := pools[d.name := built.value]; }
      return o.Applied?;
    }

    method DeleteStaticNodePools(names: seq<string>) returns (errs: seq<string>)
      modifies this
      ensures Batch(provider, old(pools), DeleteItems(names), old(script)) == BatchEnd(pools, errs, script)
    {
      errs := [];
      ghost var items := DeleteItems(names);
      for i := 0 to |names|
        invariant var rest := Batch(provider, pools, items[i..], script);
                  Batch(provider, old(pools), items, old(script)) == rest.(failed := errs + rest.failed)
      {
        assert items[i..][0] == DeletePool(names[i]) && items[i..][1..] == items[i + 1..];
        ghost var before := errs;
        var ok := DeleteNodePool(names[i]);
        if !ok { errs := errs + [names[i]]; }
        Regroup(before, if ok then [] else [names[i]], Batch(provider, pools, items[i + 1..], script).failed);
      }
    }

    method EnsureStaticNodePools(desired: seq<DesiredPool>) returns (errs: seq<string>)
      modifies this
      ensures Batch(provider, old(pools), MakeItems(desired), old(script)) == BatchEnd(pools, errs, script)
    {
      errs := [];
      ghost var items := MakeItems(desired);
      for i := 0 to |desired|
        invariant var rest := Batch(provider, pools, items[i..], script);
                  Batch(provider, old(pools), items, old(script)) == rest.(failed := errs + rest.failed)
      {
        assert items[i..][0] == MakePool(desired[i]) && items[i..][1..] == items[i + 1..];
        ghost var before := errs;
        var ok := EnsureNodePool(desired[i]);
        if !ok { errs := errs + [desired[i].name]; }
        Regroup(before, if ok then [] else [desired[i].name], Batch(provider, pools, items[i + 1..], script).failed);
      }
    }

    /** `listed` is the answer of the provider's listing; an answer that is not the current list is taken
        for a failed call. */
    method Reconcile(project: string, rs: seq<Reservation>, config: Config, listed: seq<Pool>, slices: seq<Slice>,
                     nodes: seq<map<string, string>>)
      returns (ok: bool)
      modifies this
      ensures var desired := Expand(project, Flatten(rs), config);
              End(pools, ok, script) ==
                if desired.None? then End(old(pools), false, old(script))
                else WholePass(provider, old(pools), Begin(listed, desired.value, slices, nodes), old(script))
    {
      var constructed := ConstructDesiredNodePools(project, rs, config);
      if constructed.None? { return false; }
      var desired := constructed.value;
      if !Lists(pools, listed) { return false; }
      var diff := DiffStaticNodePools(provider, listed, desired);
      if diff.None? { return false; }
      var plan := PlanPass(diff.value, listed, slices, nodes);
      ok := Apply(plan);
    }

    /** The three delete batches and the create batch; an empty one is not started. */
    method Apply(plan: WorkLists) returns (ok: bool)
      modifies this
      ensures Batches(provider, old(pools), plan, 0, old(script)) == End(pools, ok, script)
    {
      var errs: seq<string> := [];
      if |plan.missing| > 0 {
        errs := DeleteStaticNodePools(plan.missing);
        if |errs| > 0 { return false; }
      }
      assert Batch(provider, old(pools), Items(plan, 0), old(script)) == BatchEnd(pools, [], script);
      ghost var pools1, script1 := pools, script;
      if |plan.error| > 0 {
        errs := DeleteStaticNodePools(plan.error);
        if |errs| > 0 { return false; }
      }
      assert Batch(provider, pools1, Items(plan, 1), script1) == BatchEnd(pools, [], script);
      ghost var pools2, script2 := pools, script;
      if |plan.update| > 0 {
        errs := DeleteStaticNodePools(plan.update);
        if |errs| > 0 { return false; }
      }
      assert Batch(provider, pools2, Items(plan, 2), script2) == BatchEnd(pools, [], script);
      ghost var pools3, script3 := pools, script;
      if |plan.create| > 0 {
        errs := EnsureStaticNodePools(plan.create);
      }
      assert Batch(provider, pools3, Items(plan, 3), script3) == BatchEnd(pools, errs, script);
      return |errs| == 0;
    }
  }

  // ---- Passes are runs ----

  lemma {:induction false} RunJoin(g: Provider, w: World, a: seq<Event>, b: seq<Event>)
    ensures Run(g, w, a + b) == Run(g, Run(g, w, a), b)
    ensures RunAssumed(g, w, a) && RunAssumed(g, Run(g, w, a), b) ==> RunAssumed(g, w, a + b)
    decreases |a|
  {
    if a == [] {
      assert a + b == b;
    } else {
      assert (a + b)[1..] == a[1..] + b;
      RunJoin(g, Do(g, w, a[0]), a[1..], b);
    }
  }

  lemma {:induction false} BatchIsRun(g: Provider, w: World, script: seq<Outcome>) returns (es: seq<Event>)
    requires w.pass.Running?
    ensures var e := Batch(g, w.pools, w.pass.todo, script);
            Run(g, w, es) == w.(pools := e.pools,
                                pass := w.pass.(todo := [], failed := w.pass.failed || e.failed != []))
    ensures RunAssumed(g, w, es)
    decreases |w.pass.todo|
  {
    if w.pass.todo == [] {
      es := [];
    } else {
      var e := Attempt(0, FirstOutcome(script));
      var w' := Do(g, w, e);
      assert w'.pass.todo == w.pass.todo[1..];
      var rest := BatchIsRun(g, w', OtherOutcomes(script));
      es := [e] + rest;
      assert es[1..] == rest;
    }
  }

  /** The cluster whose slices and nodes are those a pass lists. */
  function At(pools: Pools, b: Begin, pass: Pass): World { World(pools, b.slices, b.nodes, pass) }

  lemma BatchIsOver(g: Provider, pools: Pools, b: Begin, stage: nat, failed: bool)
    requires HasPlan(g, b) && stage <= CREATES
    ensures Do(g, At(pools, b, Running(b, stage, [], failed)), Advance) ==
            At(pools, b, if failed || stage == CREATES then Idle
                         else Running(b, stage + 1, Items(PlanFor(g, b), stage + 1), false))
  {
  }

  lemma {:induction false} BatchesAreRun(g: Provider, pools: Pools, b: Begin, stage: nat, script: seq<Outcome>)
    returns (es: seq<Event>)
    requires HasPlan(g, b) && stage <= CREATES
    ensures var w := At(pools, b, Running(b, stage, Items(PlanFor(g, b), stage), false));
            RunAssumed(g, w, es)
            && Run(g, w, es) == At(Batches(g, pools, PlanFor(g, b), stage, script).pools, b, Idle)
    decreases CREATES - stage
  {
    var plan := PlanFor(g, b);
    var items := Items(plan, stage);
    var w := At(pools, b, Running(b, stage, items, false));
    var e := Batch(g, pools, items, script);
    var w1 := At(e.pools, b, Running(b, stage, [], e.failed != []));
    var attempts := BatchIsRun(g, w, script);
    var rest: seq<Event> := [];
    BatchIsOver(g, e.pools, b, stage, e.failed != []);
    NextBatch(g, pools, plan, stage, script);
    if e.failed == [] && stage < CREATES {
      rest := BatchesAreRun(g, e.pools, b, stage + 1, e.script);
    }
    es := attempts + ([Advance] + rest);
    ThenAdvance(g, w, attempts, w1, rest);
  }

  lemma NextBatch(g: Provider, pools: Pools, plan: WorkLists, stage: nat, script: seq<Outcome>)
    requires stage <= CREATES
    ensures var e := Batch(g, pools, Items(plan, stage), script);
            var after := Batches(g, pools, plan, stage, script).pools;
            if e.failed == [] && stage < CREATES then after == Batches(g, e.pools, plan, stage + 1, e.script).pools
            else after == e.pools
  {
    var e := Batch(g, pools, Items(plan, stage), script);
    if stage == CREATES { assert Batches(g, e.pools, plan, stage + 1, e.script).pools == e.pools; }
  }

  lemma ThenAdvance(g: Provider, w: World, attempts: seq<Event>, w1: World, rest: seq<Event>)
    requires Run(g, w, attempts) == w1
    requires RunAssumed(g, w, attempts) && RunAssumed(g, Do(g, w1, Advance), rest)
    ensures RunAssumed(g, w, attempts + ([Advance] + rest))
    ensures Run(g, w, attempts + ([Advance] + rest)) == Run(g, Do(g, w1, Advance), rest)
  {
    assert ([Advance] + rest)[1..] == rest;
    RunJoin(g, w, attempts, [Advance] + rest);
  }

  lemma OpeningIsRun(g: Provider, w: World, b: Begin, rest: seq<Event>)
    requires w.pass.Idle? && w.slices == b.slices && w.nodes == b.nodes && Lists(w.pools, b.listed) && HasPlan(g, b)
    requires Assumed(w, Start(b.listed, b.desired)) && RunAssumed(g, w.(pass := Begun(g, b)), rest)
    ensures var es := [Start(b.listed, b.desired), LookAtSlices, LookAtNodes] + rest;
            RunAssumed(g, w, es) && Run(g, w, es) == Run(g, w.(pass := Begun(g, b)), rest)
  {
    var es := [Start(b.listed, b.desired), LookAtSlices, LookAtNodes] + rest;
    assert es[1..] == [LookAtSlices, LookAtNodes] + rest;
    assert es[1..][1..] == [LookAtNodes] + rest && es[1..][1..][1..] == rest;
    var w1 := w.(pass := Listed(b.listed, b.desired));
    var w2 := w.(pass := Looked(b.listed, b.desired, b.slices));
    LooksBegin(g, w, b);
    assert Do(g, w, es[0]) == w1 && Do(g, w1, LookAtSlices) == w2;
    assert Run(g, w2, es[1..][1..]) == Run(g, w.(pass := Begun(g, b)), rest);
    assert Run(g, w1, es[1..]) == Run(g, w2, es[1..][1..]);
    assert RunAssumed(g, w2, es[1..][1..]) && RunAssumed(g, w1, es[1..]);
  }

  /** A pass of the reconciler is a run of the machine: nothing it does escapes `NoSubblockIsShared`. */
  lemma PassIsRun(g: Provider, pools: Pools, b: Begin, script: seq<Outcome>) returns (es: seq<Event>)
    requires Assumed(At(pools, b, Idle), Start(b.listed, b.desired))
    ensures RunAssumed(g, At(pools, b, Idle), es)
    ensures Run(g, At(pools, b, Idle), es) == At(WholePass(g, pools, b, script).pools, b, Idle)
  {
    es := [];
    if Lists(pools, b.listed) && HasPlan(g, b) {
      var rest := BatchesAreRun(g, pools, b, 0, script);
      OpeningIsRun(g, At(pools, b, Idle), b, rest);
      es := [Start(b.listed, b.desired), LookAtSlices, LookAtNodes] + rest;
    }
  }

  // ---- Convergence ----

  lemma {:induction false} QuietDeletes(g: Provider, pools: Pools, names: seq<string>)
    ensures Batch(g, pools, DeleteItems(names), []) == BatchEnd(pools - (set n | n in names), [], [])
    decreases |names|
  {
    if names == [] {
      assert pools - (set n | n in names) == pools;
    } else {
      assert DeleteItems(names)[1..] == DeleteItems(names[1..]);
      QuietDeletes(g, pools - {names[0]}, names[1..]);
      assert pools - {names[0]} - (set n | n in names[1..]) == pools - (set n | n in names);
    }
  }

  /** The pools after `created` were built where their names were free. */
  predicate Added(g: Provider, pools: Pools, created: seq<DesiredPool>, after: Pools) {
    && (forall n :: n in after ==> n in pools || n in DesiredNames(created))
    && (forall n :: n in pools ==> n in after && after[n] == pools[n])
    && (forall d :: d in created ==> d.name in after && Build(g, d) == Some(after[d.name]))
  }

  lemma {:induction false} QuietCreates(g: Provider, pools: Pools, create: seq<DesiredPool>)
    requires DistinctPoolNames(create) && AllBuild(g, create)
    requires forall d :: d in create ==> d.name !in pools
    ensures var e := Batch(g, pools, MakeItems(create), []); e.failed == [] && Added(g, pools, create, e.pools)
    decreases |create|
  {
    if create != [] {
      RestIsReady(g, pools, create);
      QuietCreates(g, pools[create[0].name := Build(g, create[0]).value], create[1..]);
      QuietCreate(g, pools, create);
      AddedFirst(g, pools, create, Batch(g, pools, MakeItems(create), []).pools);
    }
  }

  lemma QuietCreate(g: Provider, pools: Pools, create: seq<DesiredPool>)
    requires create != [] && Build(g, create[0]).Some? && create[0].name !in pools
    ensures Batch(g, pools, MakeItems(create), []) ==
            Batch(g, pools[create[0].name := Build(g, create[0]).value], MakeItems(create[1..]), [])
  {
    assert MakeItems(create)[1..] == MakeItems(create[1..]);
  }

  lemma RestIsReady(g: Provider, pools: Pools, create: seq<DesiredPool>)
    requires create != [] && DistinctPoolNames(create) && AllBuild(g, create)
    requires forall d :: d in create ==> d.name !in pools
    ensures Build(g, create[0]).Some? && create[0].name !in pools
    ensures DistinctPoolNames(create[1..]) && AllBuild(g, create[1..])
    ensures forall r :: r in create[1..] ==> r.name !in pools[create[0].name := Build(g, create[0]).value]
  {
    assert create[0] in create;
    assert forall r :: r in create[1..] ==> r in create && r.name != create[0].name;
  }

  lemma AddedFirst(g: Provider, pools: Pools, create: seq<DesiredPool>, after: Pools)
    requires create != [] && Build(g, create[0]).Some? && create[0].name !in pools
    requires Added(g, pools[create[0].name := Build(g, create[0]).value], create[1..], after)
    ensures Added(g, pools, create, after)
  {
    var d, rest := create[0], create[1..];
    assert create == [d] + rest;
    assert DesiredNames(create) == {d.name} + DesiredNames(rest);
  }

  lemma {:induction false} FilterAll<T(!new)>(s: seq<T>, p: T -> bool)
    requires forall x :: x in s ==> p(x)
    ensures Filter(s, p) == s
  {
    if s != [] { FilterAll(s[1..], p); }
  }

  predicate NothingLocked(g: Provider, b: Begin)
    requires HasPlan(g, b)
  {
    var diff := DiffPools(g, b.listed, b.desired).value;
    forall n :: n in diff.missing || n in diff.update ==> n !in LocksAt(b)
  }

  lemma UnlockedPlanIsTheDiff(g: Provider, b: Begin)
    requires HasPlan(g, b) && NothingLocked(g, b)
    ensures var diff := DiffPools(g, b.listed, b.desired).value;
            PlanFor(g, b) == WorkLists(diff.missing, diff.error, diff.update, diff.create)
  {
    var diff, index := DiffPools(g, b.listed, b.desired).value, PoolIndex(b.listed);
    FilterAll(diff.missing, n => n !in LocksAt(b));
    FilterAll(diff.update, n => n !in LocksAt(b));
    FilterAll(diff.create, d => MayCreate(diff, LocksAt(b), index, d));
  }

  lemma {:induction false} CreatesAreDistinct(g: Provider, desired: seq<DesiredPool>, index: map<string, Pool>)
    requires DistinctPoolNames(desired)
    ensures DistinctPoolNames(ToCreate(g, desired, index))
  {
    if desired != [] {
      var init, last := desired[..|desired| - 1], desired[|desired| - 1];
      CreatesAreDistinct(g, init, index);
      DiffMembers(g, init, index);
      forall d | d in ToCreate(g, init, index) ensures d.name != last.name {
        var k :| 0 <= k < |init| && init[k] == d;
        assert desired[k] == d;
      }
    }
  }

  /** The pools after the deletes of an unlocked pass: none on a delete list, the others as before. */
  function AfterDeletes(pools: Pools, diff: Diff): Pools {
    pools - (set n | n in diff.missing) - (set n | n in diff.error) - (set n | n in diff.update)
  }

  lemma QuietPass(g: Provider, pools: Pools, b: Begin)
    requires Keyed(pools) && Lists(pools, b.listed) && HasPlan(g, b) && NothingLocked(g, b)
    requires DistinctPoolNames(b.desired)
    ensures var diff, e := DiffPools(g, b.listed, b.desired).value, WholePass(g, pools, b, []);
            e.ok && Added(g, AfterDeletes(pools, diff), diff.create, e.pools)
  {
    var diff := DiffPools(g, b.listed, b.desired).value;
    UnlockedPlanIsTheDiff(g, b);
    var plan := PlanFor(g, b);
    ListedIndex(pools, b.listed);
    DiffMembers(g, b.desired, pools);
    CreatesAreDistinct(g, b.desired, pools);
    var pools1 := pools - (set n | n in diff.missing);
    var pools2 := pools1 - (set n | n in diff.error);
    var pools3 := pools2 - (set n | n in diff.update);
    QuietDeletes(g, pools, diff.missing);
    QuietDeletes(g, pools1, diff.error);
    QuietDeletes(g, pools2, diff.update);
    forall d | d in diff.create ensures d.name !in pools3 {
      assert d in b.desired && !NeedOf(g, d, pools).Fine?;
    }
    QuietCreates(g, pools3, diff.create);
    assert Batches(g, pools, plan, 0, []) == Batches(g, pools1, plan, 1, []);
    assert Batches(g, pools1, plan, 1, []) == Batches(g, pools2, plan, 2, []);
    assert Batches(g, pools2, plan, 2, []) == Batches(g, pools3, plan, 3, []);
  }

  /** The desired pools all exist as they should, and no other pool is static. */
  predicate Converged(g: Provider, pools: Pools, desired: seq<DesiredPool>) {
    && (forall d :: d in desired ==> Build(g, d).Some? && Fits(g, pools, d))
    && (forall n :: n in pools && IsStatic(pools[n].labels) ==> n in DesiredNames(desired))
  }

  /** One failure-free pass with no locked pool, from any pools at all, converges: every desired pool is
      there, built with the desired hash or left as it was because it matches or carries no hash, and no
      other static pool remains. */
  lemma OnePassConverges(g: Provider, pools: Pools, b: Begin)
    requires Keyed(pools) && Lists(pools, b.listed) && HasPlan(g, b) && NothingLocked(g, b)
    requires DistinctPoolNames(b.desired)
    ensures var e := WholePass(g, pools, b, []);
            && e.ok && Converged(g, e.pools, b.desired)
            && forall d :: d in b.desired ==>
                 if Fits(g, pools, d) then e.pools[d.name] == pools[d.name] else Build(g, d) == Some(e.pools[d.name])
  {
    var diff, after := DiffPools(g, b.listed, b.desired).value, WholePass(g, pools, b, []).pools;
    QuietPass(g, pools, b);
    ListedIndex(pools, b.listed);
    DiffMembers(g, b.desired, pools);
    MissingMembers(DesiredNames(b.desired), b.listed);
    forall d | d in b.desired
      ensures Fits(g, after, d)
      ensures if Fits(g, pools, d) then after[d.name] == pools[d.name] else Build(g, d) == Some(after[d.name])
    {
      NeedExactly(g, d, pools);
      NeedExactly(g, d, after);
      if NeedOf(g, d, pools).Fine? { FineSurvives(g, pools, b, d); } else { BuiltIsOurs(g, d); }
    }
    forall n | n in after && IsStatic(after[n].labels) ensures n in DesiredNames(b.desired) {
      if n in pools && after[n] == pools[n] {
        assert pools[n] in b.listed;
      }
    }
  }

  lemma FineSurvives(g: Provider, pools: Pools, b: Begin, d: DesiredPool)
    requires Keyed(pools) && Lists(pools, b.listed) && HasPlan(g, b) && DistinctPoolNames(b.desired)
    requires d in b.desired && NeedOf(g, d, pools).Fine?
    ensures d.name in AfterDeletes(pools, DiffPools(g, b.listed, b.desired).value)
  {
    var diff := DiffPools(g, b.listed, b.desired).value;
    ListedIndex(pools, b.listed);
    DiffMembers(g, b.desired, pools);
    MissingMembers(DesiredNames(b.desired), b.listed);
    forall e | e in b.desired && e.name == d.name ensures e == d { DesiredIsOne(b.desired, e, d); }
  }

  lemma EventKeepsNames(g: Provider, w: World, e: Event)
    requires Keyed(w.pools)
    ensures Keyed(Do(g, w, e).pools)
  {
  }

  lemma {:induction false} RunKeepsNames(g: Provider, w: World, es: seq<Event>)
    requires Keyed(w.pools)
    ensures Keyed(Run(g, w, es).pools)
    decreases |es|
  {
    if es != [] {
      EventKeepsNames(g, w, es[0]);
      RunKeepsNames(g, Do(g, w, es[0]), es[1..]);
    }
  }

  /** So whatever ran before, and however it failed, the next failure-free pass converges. */
  lemma ConvergesAfterAnyRun(g: Provider, w: World, es: seq<Event>, b: Begin)
    requires Keyed(w.pools)
    requires var pools := Run(g, w, es).pools;
             Lists(pools, b.listed) && HasPlan(g, b) && NothingLocked(g, b) && DistinctPoolNames(b.desired)
    ensures var e := WholePass(g, Run(g, w, es).pools, b, []); e.ok && Converged(g, e.pools, b.desired)
  {
    RunKeepsNames(g, w, es);
    OnePassConverges(g, Run(g, w, es).pools, b);
  }

  function StaticNames(pools: Pools): set<string> {
    set n | n in pools && IsStatic(pools[n].labels)
  }

  /** When desired names are held by static pools only and node labels keep the static label, the static
      pools are then exactly the desired ones. */
  lemma StaticNamesAreTheDesired(g: Provider, pools: Pools, b: Begin)
    requires Keyed(pools) && Lists(pools, b.listed) && HasPlan(g, b) && NothingLocked(g, b)
    requires DistinctPoolNames(b.desired)
    requires forall d :: d in b.desired ==>
               IsStatic(PlainLabels(d)) && (d.name in pools ==> IsStatic(pools[d.name].labels))
    ensures StaticNames(WholePass(g, pools, b, []).pools) == DesiredNames(b.desired)
  {
    OnePassConverges(g, pools, b);
    NamesAgree(g, pools, b.desired, WholePass(g, pools, b, []).pools);
  }

  lemma NamesAgree(g: Provider, pools: Pools, desired: seq<DesiredPool>, after: Pools)
    requires Converged(g, after, desired)
    requires forall d :: d in desired ==>
               if Fits(g, pools, d) then after[d.name] == pools[d.name] else Build(g, d) == Some(after[d.name])
    requires forall d :: d in desired ==>
               IsStatic(PlainLabels(d)) && (d.name in pools ==> IsStatic(pools[d.name].labels))
    ensures StaticNames(after) == DesiredNames(desired)
  {
    forall n | n in DesiredNames(desired) ensures n in after && IsStatic(after[n].labels) {
      var d :| d in desired && d.name == n;
      assert Fits(g, after, d);
    }
  }

  /** Why a kept pool must not hold another desired pool's subblock: if one does, because it carries no
      hash or because hashes collide, then the pass that builds the other makes them share it. */
  lemma KeptPoolShares(g: Provider, pools: Pools, b: Begin, e: DesiredPool, d: DesiredPool)
    requires Keyed(pools) && Lists(pools, b.listed) && HasPlan(g, b) && NothingLocked(g, b)
    requires DistinctPoolNames(b.desired)
    requires e in b.desired && StaticPool(pools, e.name) && Fits(g, pools, e)
    requires d in b.desired && !Fits(g, pools, d) && IsStatic(PlainLabels(d))
    requires d.subblock == pools[e.name].subblock
    ensures !SubblocksExclusive(WholePass(g, pools, b, []).pools)
  {
    OnePassConverges(g, pools, b);
    DesiredIsOne(b.desired, d, e);
    BuiltShares(g, pools, WholePass(g, pools, b, []).pools, e, d);
  }

  lemma BuiltShares(g: Provider, pools: Pools, after: Pools, e: DesiredPool, d: DesiredPool)
    requires StaticPool(pools, e.name) && e.name in after && after[e.name] == pools[e.name]
    requires d.name in after && Build(g, d) == Some(after[d.name]) && IsStatic(PlainLabels(d))
    requires d.subblock == pools[e.name].subblock && d.name != e.name
    ensures !SubblocksExclusive(after)
  {
    assert StaticPool(after, e.name);
    assert StaticPool(after, d.name);
  }

  lemma {:induction false} NothingNeeded(g: Provider, desired: seq<DesiredPool>, index: map<string, Pool>, need: Need)
    requires forall d :: d in desired ==> NeedOf(g, d, index).Fine?
    requires !need.Fine?
    ensures ToCreate(g, desired, index) == [] && NamesNeeding(g, desired, index, need) == []
  {
    if desired != [] { NothingNeeded(g, desired[..|desired| - 1], index, need); }
  }

  /** Once converged, the comparison asks for nothing, so every later pass leaves the pools alone, whatever
      is in use and whatever the provider answers. */
  lemma ConvergedIsStable(g: Provider, pools: Pools, b: Begin, script: seq<Outcome>)
    requires Keyed(pools) && Converged(g, pools, b.desired) && Lists(pools, b.listed) && AllBuild(g, b.desired)
    ensures DiffPools(g, b.listed, b.desired) == Some(Diff([], [], [], []))
    ensures WholePass(g, pools, b, script) == End(pools, true, script)
  {
    ListedIndex(pools, b.listed);
    forall d | d in b.desired ensures NeedOf(g, d, pools).Fine? { NeedExactly(g, d, pools); }
    NothingNeeded(g, b.desired, pools, Changed);
    NothingNeeded(g, b.desired, pools, InError);
    MissingMembers(DesiredNames(b.desired), b.listed);
    var missing := MissingFrom(DesiredNames(b.desired), b.listed);
    SomeMember(missing);
    var plan := PlanFor(g, b);
    assert plan.missing == [] && plan.error == [] && plan.update == [] && plan.create == [];
    EmptyPlan(g, pools, plan, 0, script);
  }

  lemma SomeMember<T>(s: seq<T>)
    ensures s != [] ==> exists x :: x in s
  {
    if s != [] { assert s[0] in s; }
  }

  lemma {:induction false} EmptyPlan(g: Provider, pools: Pools, plan: WorkLists, stage: nat, script: seq<Outcome>)
    requires plan.missing == [] && plan.error == [] && plan.update == [] && plan.create == []
    ensures Batches(g, pools, plan, stage, script) == End(pools, true, script)
    decreases CREATES + 1 - stage
  {
    if stage <= CREATES { EmptyPlan(g, pools, plan, stage + 1, script); }
  }

  // ---- The order of the batches ----

  /** The deletes of missing pools come first, then those of pools in ERROR, then those of changed pools, and the
      creates at last; a batch with a failure is the last one, and then the pass has failed. */
  lemma BatchesInOrder(g: Provider, pools: Pools, plan: WorkLists, script: seq<Outcome>)
    ensures var missing := Batch(g, pools, DeleteItems(plan.missing), script);
            var error := Batch(g, missing.pools, DeleteItems(plan.error), missing.script);
            var update := Batch(g, error.pools, DeleteItems(plan.update), error.script);
            var create := Batch(g, update.pools, MakeItems(plan.create), update.script);
            var last := if missing.failed != [] then missing else if error.failed != [] then error
                        else if update.failed != [] then update else create;
            Batches(g, pools, plan, 0, script) == End(last.pools, last.failed == [], last.script)
  {
    var missing := Batch(g, pools, Items(plan, 0), script);
    var error := Batch(g, missing.pools, Items(plan, 1), missing.script);
    var update := Batch(g, error.pools, Items(plan, 2), error.script);
    var create := Batch(g, update.pools, Items(plan, 3), update.script);
    OneBatch(g, pools, plan, 0, script, missing);
    OneBatch(g, missing.pools, plan, 1, missing.script, error);
    OneBatch(g, error.pools, plan, 2, error.script, update);
    OneBatch(g, update.pools, plan, 3, update.script, create);
    assert Batches(g, create.pools, plan, 4, create.script) == End(create.pools, true, create.script);
  }

  lemma OneBatch(g: Provider, pools: Pools, plan: WorkLists, stage: nat, script: seq<Outcome>, e: BatchEnd)
    requires stage <= CREATES && e == Batch(g, pools, Items(plan, stage), script)
    ensures Batches(g, pools, plan, stage, script) ==
            if e.failed != [] then End(e.pools, false, e.script) else Batches(g, e.pools, plan, stage + 1, e.script)
  {
  }

  // ---- Pools that are left alone ----

  lemma {:induction false} BatchKeeps(g: Provider, pools: Pools, items: seq<Item>, script: seq<Outcome>, n: string)
    requires n in pools && DeletePool(n) !in items
    ensures n in Batch(g, pools, items, script).pools && Batch(g, pools, items, script).pools[n] == pools[n]
    decreases |items|
  {
    if items != [] {
      assert items[0] in items && items[0] != DeletePool(n) && forall x :: x in items[1..] ==> x in items;
      BatchKeeps(g, Perform(g, pools, items[0], FirstOutcome(script)).0, items[1..], OtherOutcomes(script), n);
    }
  }

  lemma {:induction false} BatchesKeep(g: Provider, pools: Pools, plan: WorkLists, stage: nat, script: seq<Outcome>,
                                       n: string)
    requires n in pools && forall k: nat :: DeletePool(n) !in Items(plan, k)
    ensures var after := Batches(g, pools, plan, stage, script).pools; n in after && after[n] == pools[n]
    decreases CREATES + 1 - stage
  {
    if stage <= CREATES {
      BatchKeeps(g, pools, Items(plan, stage), script, n);
      var e := Batch(g, pools, Items(plan, stage), script);
      if e.failed == [] { BatchesKeep(g, e.pools, plan, stage + 1, e.script, n); }
    }
  }

  lemma NotOnDeleteList(plan: WorkLists, n: string)
    requires n !in plan.missing && n !in plan.error && n !in plan.update
    ensures forall k: nat :: DeletePool(n) !in Items(plan, k)
  {
    forall k: nat ensures DeletePool(n) !in Items(plan, k) {
      if x :| x in Items(plan, k) && x == DeletePool(n) {
        var i :| 0 <= i < |Items(plan, k)| && Items(plan, k)[i] == x;
      }
    }
  }

  /** A pass leaves a pool alone, whatever the provider answers, if the pool fits every desired pool of its name
      and, when there is none, is not static. */
  lemma FittingPoolIsLeftAlone(g: Provider, pools: Pools, b: Begin, script: seq<Outcome>, n: string)
    requires Keyed(pools) && n in pools
    requires forall d :: d in b.desired && d.name == n ==> Build(g, d).Some? ==> Fits(g, pools, d)
    requires IsStatic(pools[n].labels) ==> n in DesiredNames(b.desired)
    ensures var after := WholePass(g, pools, b, script).pools; n in after && after[n] == pools[n]
  {
    if Lists(pools, b.listed) && HasPlan(g, b) {
      DiffExactly(g, b.listed, b.desired);
      var plan := PlanFor(g, b);
      forall e | e in b.listed && e.name == n ensures e == pools[n] {}
      NotOnDeleteList(plan, n);
      BatchesKeep(g, pools, plan, 0, script, n);
    }
  }

  /** So a pool of a desired name that carries no hash and is not in ERROR is never touched. */
  lemma UnhashedPoolIsLeftAlone(g: Provider, pools: Pools, b: Begin, script: seq<Outcome>, d: DesiredPool)
    requires Keyed(pools) && d in b.desired && d.name in pools
    requires "google.com/tpu-provisioner-nodepool-hash" !in pools[d.name].labels && !pools[d.name].error
    ensures var after := WholePass(g, pools, b, script).pools; d.name in after && after[d.name] == pools[d.name]
  {
    FittingPoolIsLeftAlone(g, pools, b, script, d.name);
  }
}
