/** Sync gating in every interleaving: what a pass in sync mode leaves behind when it ends among the passes of
    other owners, users and the cluster (internal/controller/jobset_slice_controller.go). */
module SyncRuns {
  import opened Base
  import opened Slices
  import opened Desired
  import opened Cluster
  import opened PassFacts
  import opened World

  /** What the pass has planned with when it takes its next step, or will have once it has taken it. */
  function PlanAt(key: OwnerKey, p: Policy, st: Store, pass: Pass, r: Reply): Option<Context> {
    match pass
    case Listing(o) =>
      if r.Items? && IsListing(st, key, r.slices) && !MustCleanUp(key, o) && o.finalizer
      then PlannedWith(key, p, o, r.slices) else None
    case AddingFinalizer(_, listed) =>
      var (st', status) := AddFinalizerOp(st, key, r);
      if status.Ok? then PlannedWith(key, p, st'.owners[key], listed) else None
    case Deleting(ctx, _) => Some(ctx)
    case Checking(ctx, _, _, _) => Some(ctx)
    case Syncing(ctx, _, _) => Some(ctx)
    case _ => None
  }

  function PlannedWith(key: OwnerKey, p: Policy, o: Owner, listed: seq<Slice>): Option<Context> {
    var w := Wants(key, o.spec);
    if w.None? then None
    else Some(Context(o, listed, w.value, Diff(w.value.slices, listed, w.value.legacy, p)))
  }

  predicate AllReadyFor(ctx: Context, p: Policy) {
    AllReady(ctx.wanted.slices, ctx.listed, ctx.wanted.legacy, p.unknownActiveIsReady)
  }

  /** The owner, if it is still there, is suspended as the pass believes, and a pass about to patch is about to
      set the field right. */
  predicate SuspendKnown(key: OwnerKey, p: Policy, st: Store, pass: Pass) {
    match pass
    case Listing(o) => key in st.owners ==> st.owners[key].suspend == o.suspend
    case Deleting(ctx, _) => key in st.owners ==> st.owners[key].suspend == ctx.owner.suspend
    case Checking(ctx, _, _, _) => key in st.owners ==> st.owners[key].suspend == ctx.owner.suspend
    case Syncing(ctx, _, target) => target == !AllReadyFor(ctx, p)
    case _ => true
  }

  /** Suspended exactly when some desired slice is absent from the list of the pass or not ready in it. */
  predicate Gated(key: OwnerKey, p: Policy, st: Store, ctx: Context) {
    key in st.owners ==> (st.owners[key].suspend == Some(true) <==> !AllReadyFor(ctx, p))
  }

  predicate InSync(key: OwnerKey, ctx: Context) { key.kind.JobSetKind? && ctx.owner.mode == "sync" }

  /** What follows the plan, a delete or a create either goes on knowing the suspend field or ends gated. */
  predicate KnowsOrGates(key: OwnerKey, p: Policy, st: Store, next: Pass, ctx: Context) {
    && SuspendKnown(key, p, st, next)
    && (next.Done? && next.result.Succeeded? && InSync(key, ctx) ==> Gated(key, p, st, ctx))
  }

  lemma NextCreateKnows(key: OwnerKey, p: Policy, st: Store, ctx: Context, todo: seq<Slice>, skipped: bool)
    requires key in st.owners ==> st.owners[key].suspend == ctx.owner.suspend
    ensures KnowsOrGates(key, p, st, NextCreate(key, p, ctx, todo, skipped), ctx)
  {
  }

  lemma NextDeleteKnows(key: OwnerKey, p: Policy, st: Store, ctx: Context, todo: seq<Slice>)
    requires key in st.owners ==> st.owners[key].suspend == ctx.owner.suspend
    ensures KnowsOrGates(key, p, st, NextDelete(key, p, ctx, todo), ctx)
  {
    NextDeleteShape(key, p, ctx, todo);
    NextCreateKnows(key, p, st, ctx, ctx.plan.toCreate, false);
  }

  lemma PlannedKnowsSuspend(key: OwnerKey, p: Policy, st: Store, o: Owner, listed: seq<Slice>)
    requires key in st.owners ==> st.owners[key].suspend == o.suspend
    ensures SuspendKnown(key, p, st, Planned(key, p, o, listed))
    ensures PlannedWith(key, p, o, listed).Some? ==>
              KnowsOrGates(key, p, st, Planned(key, p, o, listed), PlannedWith(key, p, o, listed).value)
  {
    var ctx := PlannedWith(key, p, o, listed);
    if ctx.Some? { NextDeleteKnows(key, p, st, ctx.value, ctx.value.plan.toDelete); }
  }

  lemma {:induction false} CleaningIsNoSync(key: OwnerKey, p: Policy, st: Store, o: Owner, todo: seq<Slice>)
    ensures SuspendKnown(key, p, st, NextClean(o, todo))
  {
    if todo != [] { CleaningIsNoSync(key, p, st, o, todo[1..]); }
  }

  /** One step of the pass keeps what it knows, and a last step leaves the owner gated. */
  lemma StepKnows(key: OwnerKey, p: Policy, st: Store, pass: Pass, r: Reply)
    requires SuspendKnown(key, p, st, pass)
    ensures var (st', pass') := Step(key, p, st, pass, r);
            && SuspendKnown(key, p, st', pass')
            && (PlanAt(key, p, st, pass, r).Some? ==>
                  KnowsOrGates(key, p, st', pass', PlanAt(key, p, st, pass, r).value))
  {
    match pass
    case Listing(o) =>
      if r.Items? {
        PlannedKnowsSuspend(key, p, st, o, r.slices);
        CleaningIsNoSync(key, p, st, o, r.slices);
      }
    case Cleaning(o, todo) =>
      if todo != [] { CleaningIsNoSync(key, p, DeleteOp(st, todo[0].name, r).0, o, todo[1..]); }
    case AddingFinalizer(_, listed) =>
      var st' := AddFinalizerOp(st, key, r).0;
      if key in st'.owners { PlannedKnowsSuspend(key, p, st', st'.owners[key], listed); }
    case Deleting(ctx, todo) =>
      if todo != [] { NextDeleteKnows(key, p, DeleteOp(st, todo[0].name, r).0, ctx, todo[1..]); }
    case Checking(ctx, todo, checked, skipped) => CheckingKnows(key, p, st, ctx, todo, checked, skipped, r);
    case _ =>
  }

  lemma CheckingKnows(key: OwnerKey, p: Policy, st: Store, ctx: Context, todo: seq<Slice>, checked: nat, skipped: bool,
                      r: Reply)
    requires key in st.owners ==> st.owners[key].suspend == ctx.owner.suspend
    ensures var (st', pass') := Step(key, p, st, Checking(ctx, todo, checked, skipped), r);
            KnowsOrGates(key, p, st', pass', ctx)
  {
    if todo != [] {
      NextCreateKnows(key, p, st, ctx, todo[1..], true);
      NextCreateKnows(key, p, CreateOp(st, todo[0], r).0, ctx, todo[1..], skipped);
    }
  }

  /** A pass works on a list without repeated names. */
  predicate ListsDistinct(pass: Pass) {
    match pass
    case AddingFinalizer(_, listed) => DistinctNames(listed)
    case Deleting(ctx, _) => DistinctNames(ctx.listed)
    case Checking(ctx, _, _, _) => DistinctNames(ctx.listed)
    case Syncing(ctx, _, _) => DistinctNames(ctx.listed)
    case _ => true
  }

  lemma PlannedListsDistinct(key: OwnerKey, p: Policy, o: Owner, listed: seq<Slice>)
    requires DistinctNames(listed)
    ensures ListsDistinct(Planned(key, p, o, listed))
  {
    var ctx := PlannedWith(key, p, o, listed);
    if ctx.Some? { NextDeleteShape(key, p, ctx.value, ctx.value.plan.toDelete); }
  }

  lemma {:induction false} CleaningListsDistinct(o: Owner, todo: seq<Slice>)
    ensures ListsDistinct(NextClean(o, todo))
  {
    if todo != [] { CleaningListsDistinct(o, todo[1..]); }
  }

  lemma PlanListsDistinct(key: OwnerKey, p: Policy, st: Store, pass: Pass, r: Reply)
    requires ListsDistinct(pass) && PlanAt(key, p, st, pass, r).Some?
    ensures DistinctNames(PlanAt(key, p, st, pass, r).value.listed)
  {
  }

  lemma StepListsDistinct(key: OwnerKey, p: Policy, st: Store, pass: Pass, r: Reply)
    requires ListsDistinct(pass)
    ensures ListsDistinct(Step(key, p, st, pass, r).1)
  {
    match pass
    case Listing(o) =>
      if r.Items? && IsListing(st, key, r.slices) {
        PlannedListsDistinct(key, p, o, r.slices);
        CleaningListsDistinct(o, r.slices);
      }
    case Cleaning(o, todo) => if todo != [] { CleaningListsDistinct(o, todo[1..]); }
    case AddingFinalizer(_, listed) =>
      var st' := AddFinalizerOp(st, key, r).0;
      if key in st'.owners { PlannedListsDistinct(key, p, st'.owners[key], listed); }
    case Deleting(ctx, todo) => if todo != [] { NextDeleteShape(key, p, ctx, todo[1..]); }
    case Checking(ctx, todo, checked, skipped) => CheckingListsDistinct(key, p, st, ctx, todo, checked, skipped, r);
    case _ =>
  }

  lemma CheckingListsDistinct(key: OwnerKey, p: Policy, st: Store, ctx: Context, todo: seq<Slice>, checked: nat,
                              skipped: bool, r: Reply)
    requires DistinctNames(ctx.listed)
    ensures ListsDistinct(Step(key, p, st, Checking(ctx, todo, checked, skipped), r).1)
  {
  }

  // ---- Whole runs ----

  predicate PassKnowsSuspend(w: World, key: OwnerKey) {
    key in w.passes ==>
      ListsDistinct(w.passes[key].pass) && SuspendKnown(key, w.passes[key].policy, w.store, w.passes[key].pass)
  }

  /** Nobody but the owner's own pass changes its suspend field or makes the owner anew. */
  predicate LeavesSuspend(w: World, e: Event, key: OwnerKey) {
    (e.Move? && e.key == key)
    || (key in Do(w, e).store.owners ==>
          key in w.store.owners && Do(w, e).store.owners[key].suspend == w.store.owners[key].suspend)
  }

  lemma EventKnows(w: World, e: Event, key: OwnerKey)
    requires PassKnowsSuspend(w, key) && LeavesSuspend(w, e, key)
    ensures PassKnowsSuspend(Do(w, e), key)
  {
    if e.Move? && e.key == key && key in w.passes {
      StepKnows(key, w.passes[key].policy, w.store, w.passes[key].pass, e.reply);
      StepListsDistinct(key, w.passes[key].policy, w.store, w.passes[key].pass, e.reply);
    }
  }

  lemma {:induction false} RunKnows(w: World, es: seq<Event>, key: OwnerKey)
    requires PassKnowsSuspend(w, key)
    requires forall i :: 0 <= i < |es| ==> LeavesSuspend(Run(w, es[..i]), es[i], key)
    ensures PassKnowsSuspend(Run(w, es), key)
  {
    if es != [] {
      var init, last := es[..|es| - 1], es[|es| - 1];
      forall i | 0 <= i < |init| ensures LeavesSuspend(Run(w, init[..i]), init[i], key) { assert init[..i] == es[..i]; }
      RunKnows(w, init, key);
      EventKnows(Run(w, init), last, key);
    }
  }

  /** Sync gating in every interleaving: when a pass of a JobSet in sync mode ends well, and nobody else has
      changed the suspend field, the JobSet is suspended exactly when for some desired slice the list of the pass
      has no slice with a Ready condition that is True or counts as True under the option. */
  lemma SyncGateInRuns(w: World, es: seq<Event>, key: OwnerKey, r: Reply)
    requires key in w.passes ==> w.passes[key].pass.Done?
    requires forall i :: 0 <= i < |es| ==> LeavesSuspend(Run(w, es[..i]), es[i], key)
    requires key in Run(w, es).passes
    requires var v, now := Run(w, es), Run(w, es).passes[key];
             var ctx := PlanAt(key, now.policy, v.store, now.pass, r);
             ctx.Some? && InSync(key, ctx.value)
    requires var done := Do(Run(w, es), Move(key, r)).passes[key].pass; done.Done? && done.result.Succeeded?
    ensures var v, now := Run(w, es), Run(w, es).passes[key];
            var ctx := PlanAt(key, now.policy, v.store, now.pass, r).value;
            var after := Do(v, Move(key, r)).store;
            key in after.owners ==>
              (after.owners[key].suspend == Some(true) <==>
               exists d :: d in ctx.wanted.slices
                           && Unready(d, ctx.listed, ctx.wanted.legacy, now.policy.unknownActiveIsReady))
  {
    RunKnows(w, es, key);
    var now := Run(w, es).passes[key];
    StepKnows(key, now.policy, Run(w, es).store, now.pass, r);
    PlanListsDistinct(key, now.policy, Run(w, es).store, now.pass, r);
    var ctx := PlanAt(key, now.policy, Run(w, es).store, now.pass, r).value;
    AllReadyExactly(ctx.wanted.slices, ctx.listed, ctx.wanted.legacy, now.policy.unknownActiveIsReady);
  }
}
