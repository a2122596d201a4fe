/** What becomes of an owner that goes away, and of one the reconcilers are not for
    (internal/controller/jobset_slice_controller.go, internal/controller/lws_slice_controller.go). */
module Cleanup {
  import opened Base
  import opened Slices
  import opened Cluster
  import opened World
  import opened PassFacts

  /** The slices once deletion of all slices of `key` has been requested. */
  function AllAsked(key: OwnerKey, m: map<string, Slice>): map<string, Slice> {
    map n | n in m :: if m[n].owner == Some(key) then m[n].(terminating := true) else m[n]
  }

  /** The owners once ours has lost the cleanup finalizer, if it held it. */
  function Released(key: OwnerKey, owners: map<OwnerKey, Owner>): map<OwnerKey, Owner>
    requires key in owners
  {
    var o := owners[key];
    if !o.finalizer then owners
    else if o.deleting && !o.otherFinalizers then owners - {key}
    else owners[key := o.(finalizer := false)]
  }

  /** Where a clean-up stands: its list covers the live slices of the owner and names no slice of others. */
  ghost predicate Cleans(key: OwnerKey, st: Store, o: Owner, todo: seq<Slice>) {
    && WellNamed(st) && key in st.owners && st.owners[key] == o && Covers(st, key, todo)
    && forall t :: t in todo && t.name in st.slices ==> st.slices[t.name].owner == Some(key)
  }

  lemma SkippedStays(key: OwnerKey, st: Store, o: Owner, todo: seq<Slice>)
    requires Cleans(key, st, o, todo) && todo != [] && todo[0].terminating
    ensures Cleans(key, st, o, todo[1..])
  {
    forall name | LiveOf(st, key, name) ensures InTodo(todo[1..], name) {
      var t :| t in todo && t.name == name && !t.terminating;
      assert t in todo[1..];
    }
  }

  lemma DeletedStays(key: OwnerKey, st: Store, o: Owner, todo: seq<Slice>, r: Reply)
    requires Cleans(key, st, o, todo) && todo != []
    requires !DeleteOp(st, todo[0].name, r).1.Error?
    ensures var st' := DeleteOp(st, todo[0].name, r).0;
            Cleans(key, st', o, todo[1..]) && AllAsked(key, st'.slices) == AllAsked(key, st.slices)
            && st'.owners == st.owners && st'.clock == st.clock
  {
    var st' := DeleteOp(st, todo[0].name, r).0;
    assert todo[0] in todo;
    forall name | LiveOf(st', key, name) ensures InTodo(todo[1..], name) {
      assert LiveOf(st, key, name) && InTodo(todo, name);
      var t :| t in todo && t.name == name && !t.terminating;
      assert t in todo[1..];
    }
  }

  lemma NothingLive(key: OwnerKey, st: Store, o: Owner)
    requires Cleans(key, st, o, [])
    ensures AllAsked(key, st.slices) == st.slices
  {
    forall n | n in st.slices && st.slices[n].owner == Some(key) ensures st.slices[n].terminating {
      assert !InTodo([], n);
    }
  }

  lemma LastStep(key: OwnerKey, p: Policy, st: Store, o: Owner, script: seq<Reply>)
    requires Cleans(key, st, o, [])
    requires Drain(key, p, st, NextClean(o, []), script).result.Succeeded?
    ensures Drain(key, p, st, NextClean(o, []), script).store ==
            Store(Released(key, st.owners), AllAsked(key, st.slices), st.clock)
  {
    NothingLive(key, st, o);
    if o.finalizer {
      var (st', pass') := Step(key, p, st, Cleaning(o, []), Head(script));
      assert Drain(key, p, st, Cleaning(o, []), script) == Drain(key, p, st', pass', Tail(script));
    }
  }

  lemma DeleteIsAnswered(key: OwnerKey, p: Policy, st: Store, o: Owner, todo: seq<Slice>, script: seq<Reply>)
    requires todo != [] && Drain(key, p, st, Cleaning(o, todo), script).result.Succeeded?
    ensures var (st', status) := DeleteOp(st, todo[0].name, Head(script));
            !status.Error? && Drain(key, p, st, Cleaning(o, todo), script) ==
                              Drain(key, p, st', NextClean(o, todo[1..]), Tail(script))
  {
  }

  /** A clean-up that succeeds has asked for every slice of its owner and given up the finalizer. */
  lemma {:induction false} CleaningReleases(key: OwnerKey, p: Policy, st: Store, o: Owner, todo: seq<Slice>,
                                            script: seq<Reply>)
    requires Cleans(key, st, o, todo) && Drain(key, p, st, NextClean(o, todo), script).result.Succeeded?
    ensures Drain(key, p, st, NextClean(o, todo), script).store ==
            Store(Released(key, st.owners), AllAsked(key, st.slices), st.clock)
    decreases |todo|
  {
    if todo == [] {
      LastStep(key, p, st, o, script);
    } else if todo[0].terminating {
      SkippedStays(key, st, o, todo);
      CleaningReleases(key, p, st, o, todo[1..], script);
    } else {
      DeleteIsAnswered(key, p, st, o, todo, script);
      DeletedStays(key, st, o, todo, Head(script));
      CleaningReleases(key, p, DeleteOp(st, todo[0].name, Head(script)).0, o, todo[1..], Tail(script));
    }
  }

  lemma ListIsAnswered(key: OwnerKey, p: Policy, st: Store, o: Owner, script: seq<Reply>)
    requires Drain(key, p, st, Listing(o), script).result.Succeeded?
    ensures Head(script).Items? && IsListing(st, key, Head(script).slices)
  {
  }

  lemma ListingCleans(key: OwnerKey, st: Store, listed: seq<Slice>)
    requires WellNamed(st) && key in st.owners && IsListing(st, key, listed)
    ensures Cleans(key, st, st.owners[key], listed)
  {
    forall name | LiveOf(st, key, name) ensures InTodo(listed, name) { assert st.slices[name] in listed; }
  }

  /** When a pass succeeds for an owner that is being deleted or for a JobSet that is finished, then every
      slice of the owner has been asked to go, the owner has lost the cleanup finalizer, and so is gone if it
      is being deleted and nobody else holds it; and nothing else has changed. */
  lemma CleanUpCompletes(key: OwnerKey, p: Policy, st: Store, script: seq<Reply>)
    requires WellNamed(st) && key in st.owners
    requires st.owners[key].deleting || (key.kind.JobSetKind? && st.owners[key].finished)
    requires Drain(key, p, st, Fetching, script).result.Succeeded?
    ensures var o, final := st.owners[key], Drain(key, p, st, Fetching, script).store;
            && (forall n :: n in final.slices && final.slices[n].owner == Some(key) ==> final.slices[n].terminating)
            && (key in final.owners ==> !final.owners[key].finalizer)
            && (o.deleting && o.finalizer && !o.otherFinalizers ==> key !in final.owners)
            && (forall k :: k in st.owners && k != key ==> k in final.owners && final.owners[k] == st.owners[k])
            && final.slices.Keys == st.slices.Keys
            && (forall n :: n in st.slices && st.slices[n].owner != Some(key) ==> final.slices[n] == st.slices[n])
  {
    var o, rest := st.owners[key], Tail(script);
    FetchIsAnswered(key, p, st, script);
    assert Drain(key, p, st, Fetching, script) == Drain(key, p, st, Listing(o), rest);
    ListIsAnswered(key, p, st, o, rest);
    var listed := Head(rest).slices;
    ListingIsDrained(key, p, st, o, rest);
    ListingCleans(key, st, listed);
    CleaningReleases(key, p, st, o, listed, Tail(rest));
  }

  lemma {:induction false} QuietCleaningSucceeds(key: OwnerKey, p: Policy, st: Store, o: Owner, todo: seq<Slice>)
    requires key in st.owners
    ensures Drain(key, p, st, NextClean(o, todo), []).result == Succeeded(0)
    decreases |todo|
  {
    if todo != [] {
      if todo[0].terminating {
        QuietCleaningSucceeds(key, p, st, o, todo[1..]);
      } else {
        var st' := DeleteOp(st, todo[0].name, Ack).0;
        assert Drain(key, p, st, Cleaning(o, todo), []) == Drain(key, p, st', NextClean(o, todo[1..]), []);
        QuietCleaningSucceeds(key, p, st', o, todo[1..]);
      }
    }
  }

  /** And it does succeed, at once, when its requests are answered. */
  lemma CleanUpSucceeds(key: OwnerKey, p: Policy, st: Store, listed: seq<Slice>)
    requires key in st.owners && IsListing(st, key, listed)
    requires st.owners[key].deleting || (key.kind.JobSetKind? && st.owners[key].finished)
    ensures Drain(key, p, st, Fetching, [Ack, Items(listed)]).result == Succeeded(0)
  {
    var script, o := [Ack, Items(listed)], st.owners[key];
    assert Drain(key, p, st, Fetching, script) == Drain(key, p, st, Listing(o), [Items(listed)]);
    ListingIsDrained(key, p, st, o, [Items(listed)]);
    QuietCleaningSucceeds(key, p, st, o, listed);
  }

  /** In every run, whatever happens in between: at the moment a clean-up ends well no slice of its owner is
      live, and if the owner held the finalizer when the pass fetched it, it does not hold it any more. */
  lemma CleanUpInRuns(w: World, es: seq<Event>, key: OwnerKey, r: Reply)
    requires Inv(w) && key in Run(w, es).passes
    requires var pass := Run(w, es).passes[key].pass;
             pass.Cleaning? || (pass.Listing? && (pass.owner.deleting || (key.kind.JobSetKind? && pass.owner.finished)))
    requires var done := Do(Run(w, es), Move(key, r)).passes[key].pass; done.Done? && done.result.Succeeded?
    ensures var st := Do(Run(w, es), Move(key, r)).store;
            && (forall n :: n in st.slices && st.slices[n].owner == Some(key) ==> st.slices[n].terminating)
            && (Run(w, es).passes[key].pass.owner.finalizer ==> key in st.owners ==> !st.owners[key].finalizer)
  {
    NoSliceIsOrphaned(w, es);
    var v := Run(w, es);
    var run := v.passes[key];
    if run.pass.Cleaning? {
      LastOfCleaning(key, run.policy, v.store, run.pass.owner, run.pass.todo, r);
    } else {
      NothingToClean(key, v.store, run.pass.owner, r.slices);
    }
  }

  lemma {:induction false} OnlyTerminatingLeft(o: Owner, todo: seq<Slice>)
    requires NextClean(o, todo).Done?
    ensures !o.finalizer && forall t :: t in todo ==> t.terminating
  {
    if todo != [] { OnlyTerminatingLeft(o, todo[1..]); }
  }

  lemma NothingToClean(key: OwnerKey, st: Store, o: Owner, listed: seq<Slice>)
    requires IsListing(st, key, listed) && NextClean(o, listed).Done?
    ensures !o.finalizer && forall n :: n in st.slices && st.slices[n].owner == Some(key) ==> st.slices[n].terminating
  {
    OnlyTerminatingLeft(o, listed);
  }

  lemma LastOfCleaning(key: OwnerKey, p: Policy, st: Store, o: Owner, todo: seq<Slice>, r: Reply)
    requires WellNamed(st) && Covers(st, key, todo)
    requires var pass := Step(key, p, st, Cleaning(o, todo), r).1; pass.Done? && pass.result.Succeeded?
    ensures var st' := Step(key, p, st, Cleaning(o, todo), r).0;
            && (forall n :: n in st'.slices && st'.slices[n].owner == Some(key) ==> st'.slices[n].terminating)
            && (o.finalizer ==> key in st'.owners ==> !st'.owners[key].finalizer)
  {
    if todo == [] {
      forall n ensures !LiveOf(st, key, n) { assert !InTodo([], n); }
    } else {
      OnlyTerminatingLeft(o, todo[1..]);
      forall n | LiveOf(st, key, n) ensures n == todo[0].name {
        var t :| t in todo && t.name == n && !t.terminating;
        assert t == todo[0] || t in todo[1..];
      }
    }
    var st' := Step(key, p, st, Cleaning(o, todo), r).0;
    forall n | n in st'.slices && st'.slices[n].owner == Some(key) ensures st'.slices[n].terminating {
      assert LiveOf(st, key, n) ==> todo != [] && n == todo[0].name;
    }
  }

  // ---- Owners that are left alone ----

  lemma LwsListingEnds(key: OwnerKey, p: Policy, st: Store, o: Owner, script: seq<Reply>)
    requires key.kind.LwsKind? && !o.deleting && o.mode != "async"
    ensures Drain(key, p, st, Listing(o), script).store == st
  {
  }

  /** A pass for a LeaderWorkerSet whose mode is not "async" changes nothing at all. */
  lemma OtherModesAreLeftAlone(key: OwnerKey, p: Policy, st: Store, script: seq<Reply>)
    requires key.kind.LwsKind? && key in st.owners && !st.owners[key].deleting && st.owners[key].mode != "async"
    ensures Drain(key, p, st, Fetching, script).store == st
  {
    if !Head(script).Lost? && !Head(script).Unacked? { LwsListingEnds(key, p, st, st.owners[key], Tail(script)); }
  }
}
