/** What a pass may touch, for every script of replies: its own owner and the slices labelled with it
    (internal/controller/jobset_slice_controller.go, internal/controller/lws_slice_controller.go). */
module Footprint {
  import opened Base
  import opened Slices
  import opened Desired
  import opened Cluster
  import opened World
  import opened PassFacts

  /** From `st` to `st'` slices of other owners and of nobody, and other owners, are as they were; slices of `key`
      may have been asked to go, and new slices are its. */
  ghost predicate TouchesOnly(key: OwnerKey, st: Store, st': Store) {
    && (forall n :: n in st.slices ==> n in st'.slices)
    && (forall n :: n in st.slices && st.slices[n].owner != Some(key) ==> st'.slices[n] == st.slices[n])
    && (forall n :: n in st.slices && st.slices[n].owner == Some(key) ==>
          st'.slices[n] == st.slices[n] || st'.slices[n] == st.slices[n].(terminating := true))
    && (forall n :: n in st'.slices && n !in st.slices ==> st'.slices[n].owner == Some(key))
    && (forall k :: k in st.owners && k != key ==> k in st'.owners && st'.owners[k] == st.owners[k])
    && (forall k :: k in st'.owners ==> k in st.owners)
    && st'.clock == st.clock
  }

  lemma TouchesTwice(key: OwnerKey, st: Store, st1: Store, st2: Store)
    requires TouchesOnly(key, st, st1) && TouchesOnly(key, st1, st2)
    ensures TouchesOnly(key, st, st2)
  {
  }

  /** The names in the list are free or name slices of `key`. */
  ghost predicate NamesOwn(key: OwnerKey, st: Store, todo: seq<Slice>) {
    forall t :: t in todo && t.name in st.slices ==> st.slices[t.name].owner == Some(key)
  }

  /** A pass deletes by names of its own slices and creates slices of its owner. */
  ghost predicate Minds(key: OwnerKey, st: Store, pass: Pass) {
    match pass
    case Cleaning(_, todo) => NamesOwn(key, st, todo)
    case AddingFinalizer(_, listed) => NamesOwn(key, st, listed)
    case Deleting(ctx, todo) => NamesOwn(key, st, todo) && AllFresh(key, ctx.plan.toCreate)
    case Checking(_, todo, _, _) => AllFresh(key, todo)
    case _ => true
  }

  lemma {:induction false} CleanMinds(key: OwnerKey, st: Store, o: Owner, todo: seq<Slice>)
    requires NamesOwn(key, st, todo)
    ensures Minds(key, st, NextClean(o, todo))
  {
    if todo != [] && todo[0].terminating { CleanMinds(key, st, o, todo[1..]); }
  }

  lemma {:induction false} DeleteMinds(key: OwnerKey, p: Policy, st: Store, ctx: Context, todo: seq<Slice>)
    requires NamesOwn(key, st, todo) && AllFresh(key, ctx.plan.toCreate)
    ensures Minds(key, st, NextDelete(key, p, ctx, todo))
  {
    if todo != [] && todo[0].terminating { DeleteMinds(key, p, st, ctx, todo[1..]); }
  }

  lemma {:induction false} DeletesAreListed(desired: seq<Slice>, index: map<string, Slice>, legacy: map<string, string>,
                                            p: Policy, n: nat)
    requires n <= |desired|
    ensures forall t :: t in Deletes(desired, index, legacy, p, n) ==> t in index.Values
  {
    if n > 0 { DeletesAreListed(desired, index, legacy, p, n - 1); }
  }

  lemma PlannedMinds(key: OwnerKey, p: Policy, st: Store, o: Owner, listed: seq<Slice>)
    requires NamesOwn(key, st, listed)
    ensures Minds(key, st, Planned(key, p, o, listed))
  {
    var wanted := Wants(key, o.spec);
    if wanted.Some? {
      var w := wanted.value;
      var plan := Diff(w.slices, listed, w.legacy, p);
      WantedAreFresh(key, o.spec);
      ListMembers(w.slices, Index(listed), w.legacy, p, |w.slices|);
      DeletesAreListed(w.slices, Index(listed), w.legacy, p, |w.slices|);
      IndexIsExisting(listed);
      DeleteMinds(key, p, st, Context(o, listed, w, plan), plan.toDelete);
    }
  }

  lemma AfterListMinds(key: OwnerKey, p: Policy, st: Store, o: Owner, listed: seq<Slice>)
    requires NamesOwn(key, st, listed)
    ensures Minds(key, st, AfterList(key, p, o, listed))
  {
    CleanMinds(key, st, o, listed);
    PlannedMinds(key, p, st, o, listed);
  }

  lemma DeleteTouches(key: OwnerKey, st: Store, todo: seq<Slice>, r: Reply)
    requires todo != [] && NamesOwn(key, st, todo)
    ensures var st' := DeleteOp(st, todo[0].name, r).0; TouchesOnly(key, st, st') && NamesOwn(key, st', todo[1..])
  {
    assert todo[0] in todo;
  }

  lemma CheckingTouches(key: OwnerKey, p: Policy, st: Store, ctx: Context, todo: seq<Slice>, checked: nat,
                        skipped: bool, r: Reply)
    requires AllFresh(key, todo)
    ensures var (st', pass') := Step(key, p, st, Checking(ctx, todo, checked, skipped), r);
            TouchesOnly(key, st, st') && Minds(key, st', pass')
  {
    StandsStill(key, st);
    if todo != [] {
      var st' := CreateOp(st, todo[0], r).0;
      CreateTouches(key, st, todo[0], r);
      assert AllFresh(key, todo[1..]);
      NextCreateMinds(key, p, st, ctx, todo[1..], true);
      NextCreateMinds(key, p, st', ctx, todo[1..], skipped);
      CheckingGoes(key, p, st, ctx, todo, checked, skipped, r);
    }
  }

  lemma NextCreateMinds(key: OwnerKey, p: Policy, st: Store, ctx: Context, todo: seq<Slice>, skipped: bool)
    requires AllFresh(key, todo)
    ensures Minds(key, st, NextCreate(key, p, ctx, todo, skipped))
  {
  }

  /** Where a step of the create loop leads. */
  lemma CheckingGoes(key: OwnerKey, p: Policy, st: Store, ctx: Context, todo: seq<Slice>, checked: nat, skipped: bool,
                     r: Reply)
    requires todo != []
    ensures var (st', pass') := Step(key, p, st, Checking(ctx, todo, checked, skipped), r);
            || (st' == st && (pass' == Done(Failed) || pass' == Checking(ctx, todo, checked + 1, skipped)
                              || pass' == NextCreate(key, p, ctx, todo[1..], true)))
            || (st' == CreateOp(st, todo[0], r).0
                && (pass' == Done(Failed) || pass' == NextCreate(key, p, ctx, todo[1..], skipped)))
  {
  }

  lemma StandsStill(key: OwnerKey, st: Store)
    ensures TouchesOnly(key, st, st)
  {
  }

  lemma CreateTouches(key: OwnerKey, st: Store, s: Slice, r: Reply)
    requires FreshFor(key, s)
    ensures TouchesOnly(key, st, CreateOp(st, s, r).0)
  {
  }

  lemma OwnerTouches(key: OwnerKey, st: Store, value: bool, r: Reply)
    ensures TouchesOnly(key, st, AddFinalizerOp(st, key, r).0)
    ensures TouchesOnly(key, st, RemoveFinalizerOp(st, key, r).0)
    ensures TouchesOnly(key, st, SuspendOp(st, key, value, r).0)
  {
  }

  lemma CleaningTouches(key: OwnerKey, p: Policy, st: Store, o: Owner, todo: seq<Slice>, r: Reply)
    requires NamesOwn(key, st, todo)
    ensures var (st', pass') := Step(key, p, st, Cleaning(o, todo), r);
            TouchesOnly(key, st, st') && Minds(key, st', pass')
  {
    if todo == [] {
      OwnerTouches(key, st, false, r);
    } else {
      DeleteTouches(key, st, todo, r);
      CleanMinds(key, DeleteOp(st, todo[0].name, r).0, o, todo[1..]);
    }
  }

  lemma DeletingTouches(key: OwnerKey, p: Policy, st: Store, ctx: Context, todo: seq<Slice>, r: Reply)
    requires NamesOwn(key, st, todo) && AllFresh(key, ctx.plan.toCreate)
    ensures var (st', pass') := Step(key, p, st, Deleting(ctx, todo), r);
            TouchesOnly(key, st, st') && Minds(key, st', pass')
  {
    if todo == [] {
      StandsStill(key, st);
    } else {
      DeleteTouches(key, st, todo, r);
      DeleteMinds(key, p, DeleteOp(st, todo[0].name, r).0, ctx, todo[1..]);
    }
  }

  lemma StepTouches(key: OwnerKey, p: Policy, st: Store, pass: Pass, r: Reply)
    requires Minds(key, st, pass)
    ensures var (st', pass') := Step(key, p, st, pass, r); TouchesOnly(key, st, st') && Minds(key, st', pass')
  {
    match pass
    case Fetching => StandsStill(key, st);
    case Listing(o) =>
      StandsStill(key, st);
      if r.Items? && IsListing(st, key, r.slices) { AfterListMinds(key, p, st, o, r.slices); }
    case Cleaning(o, todo) => CleaningTouches(key, p, st, o, todo, r);
    case AddingFinalizer(_, listed) =>
      OwnerTouches(key, st, false, r);
      var st' := AddFinalizerOp(st, key, r).0;
      if key in st'.owners { PlannedMinds(key, p, st', st'.owners[key], listed); }
    case Deleting(ctx, todo) => DeletingTouches(key, p, st, ctx, todo, r);
    case Checking(ctx, todo, checked, skipped) => CheckingTouches(key, p, st, ctx, todo, checked, skipped, r);
    case Syncing(_, _, target) => OwnerTouches(key, st, target, r);
    case Done(_) => StandsStill(key, st);
  }

  lemma {:induction false} DrainTouches(key: OwnerKey, p: Policy, st: Store, pass: Pass, script: seq<Reply>)
    requires Minds(key, st, pass)
    ensures TouchesOnly(key, st, Drain(key, p, st, pass, script).store)
    decreases Phase(pass), Work(pass), ChecksLeft(pass)
  {
    if !pass.Done? {
      StepShrinks(key, p, st, pass, Head(script));
      StepTouches(key, p, st, pass, Head(script));
      var (st', pass') := Step(key, p, st, pass, Head(script));
      DrainTouches(key, p, st', pass', Tail(script));
      TouchesTwice(key, st, st', Drain(key, p, st', pass', Tail(script)).store);
    }
  }

  /** A reconcile that runs alone touches no slice and no owner but its own, whatever is answered or lost. */
  lemma ReconcileTouchesOnlyItsOwn(key: OwnerKey, p: Policy, st: Store, script: seq<Reply>)
    ensures TouchesOnly(key, st, Drain(key, p, st, Fetching, script).store)
  {
    DrainTouches(key, p, st, Fetching, script);
  }

  // ---- Owners without a plan ----

  lemma NoPlanChangesNothing(key: OwnerKey, p: Policy, st: Store, o: Owner, listed: seq<Slice>, script: seq<Reply>)
    requires Wants(key, o.spec).None?
    ensures Drain(key, p, st, Planned(key, p, o, listed), script).store == st
  {
  }

  lemma AddingChangesNoSlice(key: OwnerKey, p: Policy, st: Store, o: Owner, listed: seq<Slice>, script: seq<Reply>)
    requires key in st.owners && Wants(key, st.owners[key].spec).None?
    ensures var final := Drain(key, p, st, AddingFinalizer(o, listed), script).store;
            final.slices == st.slices && key in final.owners && final.owners[key].suspend == st.owners[key].suspend
  {
    var (st', status) := AddFinalizerOp(st, key, Head(script));
    if status.Ok? {
      FinalizerIsDrained(key, p, st, o, listed, script);
      NoPlanChangesNothing(key, p, st', st'.owners[key], listed, Tail(script));
    }
  }

  /** A pass for an owner that stays and asks for nothing, because its selection is malformed or repeats a
      partition, leaves all slices and the suspend field alone, whatever is answered. */
  lemma NoPlanNoChange(key: OwnerKey, p: Policy, st: Store, script: seq<Reply>)
    requires key in st.owners && Wants(key, st.owners[key].spec).None?
    requires !st.owners[key].deleting && (key.kind.JobSetKind? ==> !st.owners[key].finished)
    ensures var final := Drain(key, p, st, Fetching, script).store;
            final.slices == st.slices && key in final.owners && final.owners[key].suspend == st.owners[key].suspend
  {
    var o, rest := st.owners[key], Tail(script);
    if !Head(script).Lost? && !Head(script).Unacked? {
      assert Drain(key, p, st, Fetching, script) == Drain(key, p, st, Listing(o), rest);
      if Head(rest).Items? && IsListing(st, key, Head(rest).slices) {
        ListingIsDrained(key, p, st, o, rest);
        NoPlanChangesNothing(key, p, st, o, Head(rest).slices, Tail(rest));
        AddingChangesNoSlice(key, p, st, o, Head(rest).slices, Tail(rest));
      }
    }
  }
}
