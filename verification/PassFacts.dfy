/** What a pass that runs alone achieves, for every script of replies: sync gating and wake-ups. */
module PassFacts {
  import opened Base
  import opened Slices
  import opened Desired
  import opened Cluster

  /** Where a pass stands when it has computed its plan. */
  datatype Start = Start(ctx: Context, store: Store, script: seq<Reply>)

  /** The reads, and possibly the finalizer patch, that come before a plan; None if the pass ends
      without one. */
  function Opening(key: OwnerKey, p: Policy, st: Store, script: seq<Reply>): Option<Start> {
    var r0, r1, r2 := Head(script), Head(Tail(script)), Head(Tail(Tail(script)));
    var rest := Tail(Tail(script));
    if r0.Lost? || r0.Unacked? || key !in st.owners || !(r1.Items? && IsListing(st, key, r1.slices)) then None
    else
      var o := st.owners[key];
      if MustCleanUp(key, o) || (key.kind.LwsKind? && o.mode != "async") then None
      else
        var (st', status) := if o.finalizer then (st, Ok) else AddFinalizerOp(st, key, r2);
        if !status.Ok? then None
        else
          var wanted := Wants(key, st'.owners[key].spec);
          if wanted.None? then None
          else
            var w := wanted.value;
            Some(Start(Context(st'.owners[key], r1.slices, w, Diff(w.slices, r1.slices, w.legacy, p)), st',
                       if o.finalizer then rest else Tail(rest)))
  }

  lemma OpeningIsDrained(key: OwnerKey, p: Policy, st: Store, script: seq<Reply>)
    requires Opening(key, p, st, script).Some?
    ensures var s := Opening(key, p, st, script).value;
            Drain(key, p, st, Fetching, script) ==
            Drain(key, p, s.store, NextDelete(key, p, s.ctx, s.ctx.plan.toDelete), s.script)
  {
    var s := Opening(key, p, st, script).value;
    var o, rest := st.owners[key], Tail(script);
    assert Drain(key, p, st, Fetching, script) == Drain(key, p, st, Listing(o), rest);
    ListingIsDrained(key, p, st, o, rest);
    if !o.finalizer { FinalizerIsDrained(key, p, st, o, s.ctx.listed, Tail(rest)); }
    assert Planned(key, p, s.ctx.owner, s.ctx.listed) == NextDelete(key, p, s.ctx, s.ctx.plan.toDelete);
  }

  lemma FinalizerIsDrained(key: OwnerKey, p: Policy, st: Store, o: Owner, listed: seq<Slice>, script: seq<Reply>)
    requires AddFinalizerOp(st, key, Head(script)).1.Ok?
    ensures var st' := AddFinalizerOp(st, key, Head(script)).0;
            key in st'.owners
            && Drain(key, p, st, AddingFinalizer(o, listed), script) ==
               Drain(key, p, st', Planned(key, p, st'.owners[key], listed), Tail(script))
  {
  }

  lemma ListingIsDrained(key: OwnerKey, p: Policy, st: Store, o: Owner, script: seq<Reply>)
    requires Head(script).Items? && IsListing(st, key, Head(script).slices)
    ensures Drain(key, p, st, Listing(o), script) ==
            Drain(key, p, st, AfterList(key, p, o, Head(script).slices), Tail(script))
  {
  }

  // ---- Deletes and creates ----

  ghost predicate Keeps(st: Store, st': Store) {
    st'.owners == st.owners
    && forall n :: n in st.slices ==> n in st'.slices && st'.slices[n].partitions == st.slices[n].partitions
  }

  /** The create loop leaves owners alone and hands over to what follows it, or fails. */
  lemma {:induction false} CreatesEnd(key: OwnerKey, p: Policy, st: Store, pass: Pass, script: seq<Reply>)
    returns (st': Store, script': seq<Reply>, skipped: bool)
    requires pass.Checking? && pass.todo != [] && pass.checked <= |pass.todo[0].partitions|
    ensures Keeps(st, st')
    ensures var f := Drain(key, p, st, pass, script);
            f.result.Failed?
            || (f == Drain(key, p, st', AfterApply(key, p, pass.ctx, skipped), script')
                && (pass.skipped ==> skipped) && (skipped || AllPresent(st', pass.todo)))
    decreases Phase(pass), Work(pass), ChecksLeft(pass)
  {
    CheckingShape(key, p, st, pass, Head(script));
    StepShrinks(key, p, st, pass, Head(script));
    var (st1, pass1) := Step(key, p, st, pass, Head(script));
    assert Drain(key, p, st, pass, script) == Drain(key, p, st1, pass1, Tail(script));
    if pass1 == Done(Failed) {
      st', script', skipped := st, script, true;
    } else if pass1.Checking? {
      st', script', skipped := CreatesEnd(key, p, st1, pass1, Tail(script));
      if pass.checked == |pass.todo[0].partitions| && AllPresent(st', pass.todo[1..]) {
        CreatedStays(st1, st', pass.todo);
      }
    } else {
      st', script', skipped := st1, Tail(script), pass.skipped || pass.checked < |pass.todo[0].partitions|;
      if pass.checked == |pass.todo[0].partitions| { CreatedStays(st1, st', pass.todo); }
    }
  }

  lemma {:induction false} DeletesEnd(key: OwnerKey, p: Policy, st: Store, pass: Pass, script: seq<Reply>)
    returns (st': Store, script': seq<Reply>, skipped: bool)
    requires pass.Deleting? && pass.todo != []
    ensures Keeps(st, st')
    ensures var f := Drain(key, p, st, pass, script);
            f.result.Failed?
            || (f == Drain(key, p, st', AfterApply(key, p, pass.ctx, skipped), script')
                && (skipped || AllPresent(st', pass.ctx.plan.toCreate)))
    decreases |pass.todo|
  {
    var (st1, pass1) := Step(key, p, st, pass, Head(script));
    assert Drain(key, p, st, pass, script) == Drain(key, p, st1, pass1, Tail(script));
    NextDeleteShape(key, p, pass.ctx, pass.todo[1..]);
    if pass1 == Done(Failed) {
      st', script', skipped := st, script, true;
    } else if pass1.Deleting? {
      SkippingShrinks(key, p, pass.ctx.owner, pass.ctx, pass.todo[1..]);
      st', script', skipped := DeletesEnd(key, p, st1, pass1, Tail(script));
    } else if pass1.Checking? {
      st', script', skipped := CreatesEnd(key, p, st1, pass1, Tail(script));
    } else {
      st', script', skipped := st1, Tail(script), false;
    }
  }

  /** One step of the create loop: another check, a skip, or a create. */
  lemma CheckingShape(key: OwnerKey, p: Policy, st: Store, pass: Pass, r: Reply)
    requires pass.Checking? && pass.todo != [] && pass.checked <= |pass.todo[0].partitions|
    ensures var (st', pass') := Step(key, p, st, pass, r);
            var ctx, todo, rest := pass.ctx, pass.todo, pass.todo[1..];
            || pass' == Done(Failed)
            || (pass.checked < |todo[0].partitions| && st' == st
                && (pass' == Checking(ctx, todo, pass.checked + 1, pass.skipped)
                    || pass' == NextCreate(key, p, ctx, rest, true)))
            || (pass.checked == |todo[0].partitions| && todo[0].name in st'.slices && todo[0].name !in st.slices
                && st' == st.(slices := st.slices[todo[0].name := st'.slices[todo[0].name]])
                && st'.slices[todo[0].name].partitions == todo[0].partitions
                && pass' == NextCreate(key, p, ctx, rest, pass.skipped))
  {
  }

  ghost predicate AllPresent(st: Store, wanted: seq<Slice>) {
    forall s :: s in wanted ==> s.name in st.slices && st.slices[s.name].partitions == s.partitions
  }

  lemma CreatedStays(st1: Store, st': Store, todo: seq<Slice>)
    requires todo != [] && AllPresent(st', todo[1..])
    requires todo[0].name in st1.slices && st1.slices[todo[0].name].partitions == todo[0].partitions
    requires forall n :: n in st1.slices ==> n in st'.slices && st'.slices[n].partitions == st1.slices[n].partitions
    ensures AllPresent(st', todo)
  {
    forall s | s in todo ensures s.name in st'.slices && st'.slices[s.name].partitions == s.partitions {
      if s != todo[0] { assert s in todo[1..]; }
    }
  }

  lemma {:induction false} NextDeleteShape(key: OwnerKey, p: Policy, ctx: Context, todo: seq<Slice>)
    ensures var next := NextDelete(key, p, ctx, todo);
            || (next.Deleting? && next.ctx == ctx && next.todo != [])
            || (next.Checking? && next == Checking(ctx, ctx.plan.toCreate, 0, false) && ctx.plan.toCreate != [])
            || (ctx.plan.toCreate == [] && next == AfterApply(key, p, ctx, false))
  {
    if todo != [] { NextDeleteShape(key, p, ctx, todo[1..]); }
  }

  /** The whole of `applySliceChanges` from its start. */
  lemma WholeApplyEnds(key: OwnerKey, p: Policy, st: Store, ctx: Context, script: seq<Reply>)
    returns (st': Store, script': seq<Reply>, skipped: bool)
    ensures st'.owners == st.owners
    ensures var f := Drain(key, p, st, NextDelete(key, p, ctx, ctx.plan.toDelete), script);
            f.result.Failed? || (f == Drain(key, p, st', AfterApply(key, p, ctx, skipped), script')
                                 && (skipped || AllPresent(st', ctx.plan.toCreate)))
  {
    NextDeleteShape(key, p, ctx, ctx.plan.toDelete);
    var next := NextDelete(key, p, ctx, ctx.plan.toDelete);
    if next.Deleting? {
      st', script', skipped := DeletesEnd(key, p, st, next, script);
    } else if next.Checking? {
      st', script', skipped := CreatesEnd(key, p, st, next, script);
    } else {
      st', script', skipped := st, script, false;
    }
  }

  /** What remains after the changes: at most the suspend patch. */
  lemma EndOfPass(key: OwnerKey, p: Policy, st: Store, ctx: Context, skipped: bool, script: seq<Reply>)
    requires key in st.owners && st.owners[key].suspend == ctx.owner.suspend
    ensures var f := Drain(key, p, st, AfterApply(key, p, ctx, skipped), script);
            f.result.Failed? ||
            (&& f.result == Succeeded(MinDuration(ctx.plan.requeueAfter, if skipped then SECOND else 0))
             && f.store.slices == st.slices
             && key in f.store.owners
             && (if key.kind.JobSetKind? && ctx.owner.mode == "sync" then
                   f.store.owners[key].suspend == Some(true) <==>
                   !AllReady(ctx.wanted.slices, ctx.listed, ctx.wanted.legacy, p.unknownActiveIsReady)
                 else f.store.owners[key].suspend == ctx.owner.suspend))
  {
    var pass := AfterApply(key, p, ctx, skipped);
    if pass.Syncing? {
      var (st1, pass1) := Step(key, p, st, pass, Head(script));
      assert Drain(key, p, st, pass, script) == Drain(key, p, st1, pass1, Tail(script));
    }
  }

  // ---- Sync gating ----

  /** A successful sync-mode pass leaves the JobSet suspended exactly when for some desired slice the list the
      pass started from has no slice with a Ready condition that is True or, with the option on and the slice
      not terminating, Unknown for reason ACTIVE. */
  lemma SyncGate(key: OwnerKey, p: Policy, st: Store, script: seq<Reply>)
    requires Opening(key, p, st, script).Some? && Drain(key, p, st, Fetching, script).result.Succeeded?
    requires key.kind.JobSetKind? && Opening(key, p, st, script).value.ctx.owner.mode == "sync"
    ensures var ctx := Opening(key, p, st, script).value.ctx;
            var final := Drain(key, p, st, Fetching, script).store;
            key in final.owners &&
            (final.owners[key].suspend == Some(true) <==>
             exists d :: d in ctx.wanted.slices && Unready(d, ctx.listed, ctx.wanted.legacy, p.unknownActiveIsReady))
  {
    OpeningIsDrained(key, p, st, script);
    var s := Opening(key, p, st, script).value;
    var st', script', skipped := WholeApplyEnds(key, p, s.store, s.ctx, s.script);
    EndOfPass(key, p, st', s.ctx, skipped, script');
    AllReadyExactly(s.ctx.wanted.slices, s.ctx.listed, s.ctx.wanted.legacy, p.unknownActiveIsReady);
  }

  /** The pass is one in sync mode that comes to a plan for `w`, having listed `listed`. */
  predicate PlansInSync(key: OwnerKey, st: Store, script: seq<Reply>, listed: seq<Slice>, w: Wanted) {
    && key.kind.JobSetKind? && key in st.owners && st.owners[key].mode == "sync"
    && !st.owners[key].deleting && !st.owners[key].finished && Wants(key, st.owners[key].spec) == Some(w)
    && Head(Tail(script)) == Items(listed) && IsListing(st, key, listed)
  }

  lemma SyncPassOpens(key: OwnerKey, p: Policy, st: Store, script: seq<Reply>, listed: seq<Slice>, w: Wanted)
    requires PlansInSync(key, st, script, listed, w) && Drain(key, p, st, Fetching, script).result.Succeeded?
    ensures Opening(key, p, st, script).Some?
    ensures var ctx := Opening(key, p, st, script).value.ctx;
            ctx.owner.mode == "sync" && ctx.listed == listed && ctx.wanted == w
  {
    var o, rest := st.owners[key], Tail(script);
    FetchIsAnswered(key, p, st, script);
    assert Drain(key, p, st, Fetching, script) == Drain(key, p, st, Listing(o), rest);
    ListingIsDrained(key, p, st, o, rest);
    if !o.finalizer { FinalizerIsAnswered(key, p, st, o, listed, Tail(rest)); }
  }

  lemma FetchIsAnswered(key: OwnerKey, p: Policy, st: Store, script: seq<Reply>)
    requires Drain(key, p, st, Fetching, script).result.Succeeded?
    ensures !Head(script).Lost? && !Head(script).Unacked?
  {
  }

  lemma FinalizerIsAnswered(key: OwnerKey, p: Policy, st: Store, o: Owner, listed: seq<Slice>, script: seq<Reply>)
    requires Drain(key, p, st, AddingFinalizer(o, listed), script).result.Succeeded?
    ensures AddFinalizerOp(st, key, Head(script)).1.Ok?
  {
  }

  /** When the list has for every desired slice one of its name with a Ready condition that is True,
      terminating or not, a successful pass leaves the JobSet running. */
  lemma ReadySlicesRun(key: OwnerKey, p: Policy, st: Store, script: seq<Reply>, listed: seq<Slice>, w: Wanted)
    requires PlansInSync(key, st, script, listed, w) && Drain(key, p, st, Fetching, script).result.Succeeded?
    requires forall d :: d in w.slices ==>
               exists s, c :: s in listed && s.name == d.name && c in s.conditions && c.kind == "Ready"
                              && c.status.StatusTrue?
    ensures var final := Drain(key, p, st, Fetching, script).store;
            key in final.owners && final.owners[key].suspend != Some(true)
  {
    SyncPassOpens(key, p, st, script, listed, w);
    SyncGate(key, p, st, script);
    forall d | d in w.slices ensures !Unready(d, listed, w.legacy, p.unknownActiveIsReady) {
      var s, c :| s in listed && s.name == d.name && c in s.conditions && c.kind == "Ready" && c.status.StatusTrue?;
      assert Finds(d, s, listed, w.legacy);
    }
  }

  /** When it has for some desired slice one of its name whose Ready condition, if any, is False, the JobSet
      ends suspended. */
  lemma UnreadySliceSuspends(key: OwnerKey, p: Policy, st: Store, script: seq<Reply>, listed: seq<Slice>, w: Wanted,
                             d: Slice, s: Slice)
    requires PlansInSync(key, st, script, listed, w) && Drain(key, p, st, Fetching, script).result.Succeeded?
    requires d in w.slices && s in listed && s.name == d.name
    requires forall c :: c in s.conditions && c.kind == "Ready" ==> c.status.StatusFalse?
    ensures var final := Drain(key, p, st, Fetching, script).store;
            key in final.owners && final.owners[key].suspend == Some(true)
  {
    SyncPassOpens(key, p, st, script, listed, w);
    SyncGate(key, p, st, script);
    LookupFinds(d, listed, w.legacy);
    assert Finds(d, s, listed, w.legacy);
  }

  /** At most one Ready condition, as the API's condition lists have. */
  ghost predicate OneReady(s: Slice) {
    forall c, c' :: c in s.conditions && c' in s.conditions && c.kind == READY && c'.kind == READY ==> c == c'
  }

  predicate UnknownActive(s: Slice) {
    exists c :: c in s.conditions && c.kind == READY && c.status.StatusUnknown? && c.reason == "ACTIVE"
  }

  /** Exactly when a slice with a matched recreate condition is ready: when the unknown-active option is on and
      covers that very condition. */
  lemma MatchedIsReadyIff(s: Slice, recreate: seq<RecreateCondition>, unknownActiveIsReady: bool)
    requires OneReady(s) && RecreationMatches(s, recreate)
    ensures IsSliceReady(s, unknownActiveIsReady) <==> unknownActiveIsReady && !s.terminating && UnknownActive(s)
  {
  }

  /** `d` is to be created, or what is found for it has a matched recreate condition that the unknown-active
      option does not cover. */
  ghost predicate Unmet(d: Slice, desired: seq<Slice>, listed: seq<Slice>, legacy: map<string, string>, p: Policy) {
    || d in Diff(desired, listed, legacy, p).toCreate
    || (d in desired
        && exists s :: Finds(d, s, listed, legacy) && OneReady(s) && RecreationMatches(s, p.recreate)
                       && !(p.unknownActiveIsReady && !s.terminating && UnknownActive(s)))
  }

  lemma UnmetIsNotReady(d: Slice, desired: seq<Slice>, listed: seq<Slice>, legacy: map<string, string>, p: Policy)
    requires DistinctNames(listed) && Unmet(d, desired, listed, legacy, p)
    ensures d in desired && !ReadyIn(d, listed, legacy, p.unknownActiveIsReady)
  {
    LookupFinds(d, listed, legacy);
    ListMembers(desired, Index(listed), legacy, p, |desired|);
  }

  /** So whenever something must be created the JobSet ends suspended; and also whenever a desired slice has a
      matched recreate condition that the unknown-active option does not cover. */
  lemma CreatesAndRecreatesSuspend(key: OwnerKey, p: Policy, st: Store, script: seq<Reply>, d: Slice)
    requires Opening(key, p, st, script).Some? && Drain(key, p, st, Fetching, script).result.Succeeded?
    requires key.kind.JobSetKind? && Opening(key, p, st, script).value.ctx.owner.mode == "sync"
    requires var ctx := Opening(key, p, st, script).value.ctx;
             Unmet(d, ctx.wanted.slices, ctx.listed, ctx.wanted.legacy, p)
    ensures var final := Drain(key, p, st, Fetching, script).store;
            key in final.owners && final.owners[key].suspend == Some(true)
  {
    var ctx := Opening(key, p, st, script).value.ctx;
    UnmetIsNotReady(d, ctx.wanted.slices, ctx.listed, ctx.wanted.legacy, p);
    ReadyExactly(d, ctx.listed, ctx.wanted.legacy, p.unknownActiveIsReady);
    SyncGate(key, p, st, script);
  }

  /** With the option on this fails: one Unknown/ACTIVE condition is both a recreate match and ready. */
  lemma UnknownActiveIsReadyAndMatches()
    ensures var c := Condition(READY, StatusUnknown, "ACTIVE", "");
            var s := Slice("s", None, "tpu7x", "4x4x4", ["cube"], [c], 0, false);
            RecreationMatches(s, [RecreateCondition("ACTIVE", "")]) && IsSliceReady(s, true) && OneReady(s)
  {
    var c := Condition(READY, StatusUnknown, "ACTIVE", "");
    assert c in [c] && RecreateCondition("ACTIVE", "") in [RecreateCondition("ACTIVE", "")];
  }

  // ---- Wake-ups ----

  /** No unfinished work is forgotten: after a successful pass either every slice the plan creates is
      in the store, or the pass comes back within a second; and whenever a slice waits for its
      recreate deadline the pass comes back no later than two seconds past it. */
  lemma NothingIsForgotten(key: OwnerKey, p: Policy, st: Store, script: seq<Reply>)
    requires Opening(key, p, st, script).Some? && Drain(key, p, st, Fetching, script).result.Succeeded?
    ensures var ctx := Opening(key, p, st, script).value.ctx;
            var f := Drain(key, p, st, Fetching, script);
            var t := f.result.requeueAfter;
            && (AllPresent(f.store, ctx.plan.toCreate) || t == SECOND)
            && (forall d, s :: d in ctx.wanted.slices && Waiting(d, s, ctx.listed, ctx.wanted.legacy, p) ==>
                  0 < t <= s.created + p.wait - p.now + 2 * SECOND)
            && (t == 0 || t >= SECOND)
  {
    OpeningIsDrained(key, p, st, script);
    var s := Opening(key, p, st, script).value;
    var st', script', skipped := WholeApplyEnds(key, p, s.store, s.ctx, s.script);
    EndOfPass(key, p, st', s.ctx, skipped, script');
    WaitingIsNotForgotten(s.ctx.wanted.slices, s.ctx.listed, s.ctx.wanted.legacy, p);
  }
}
