/** Every interleaving of the passes of all owners with users, other controllers and the cluster. */
module World {
  import opened Base
  import opened Slices
  import opened Desired
  import opened Cluster

  datatype Running = Running(policy: Policy, pass: Pass)

  /** The store and, for each owner key, its latest pass: one pass per key at a time. */
  datatype World = World(store: Store, passes: map<OwnerKey, Running>)

  datatype Event =
    | Begin(key: OwnerKey, policy: Policy)
    | Move(key: OwnerKey, reply: Reply)
    | CreateOwner(key: OwnerKey, owner: Owner)
    | ChangeOwner(key: OwnerKey, owner: Owner)
    | MarkOwnerDeleted(key: OwnerKey)
    | DropOtherFinalizers(key: OwnerKey)
    | SliceReported(name: string, conditions: seq<Condition>)
    | SliceMarkedDeleted(name: string)
    | SliceGone(name: string)
    | ForeignSlice(slice: Slice)
    | Tick(clock: int)

  /** An owner after a change to its finalizers: gone once it is deleted and nothing holds it. */
  function WithOwner(st: Store, key: OwnerKey, o: Owner): Store {
    st.(owners := if o.deleting && !o.finalizer && !o.otherFinalizers then st.owners - {key} else st.owners[key := o])
  }

  /** What one event does; an event that cannot happen changes nothing. Nobody but a pass of the
      owner touches the cleanup finalizer or creates slices with the owner's labels. */
  function Do(w: World, e: Event): World {
    var st := w.store;
    match e
    case Begin(key, p) =>
      if key in w.passes && !w.passes[key].pass.Done? then w
      else w.(passes := w.passes[key := Running(p, Fetching)])
    case Move(key, r) =>
      if key !in w.passes then w
      else
        var run := w.passes[key];
        var (st', pass') := Step(key, run.policy, st, run.pass, r);
        World(st', w.passes[key := run.(pass := pass')])
    case CreateOwner(key, o) =>
      if key in st.owners then w else w.(store := st.(owners := st.owners[key := o.(deleting := false)]))
    case ChangeOwner(key, o) =>
      if key !in st.owners then w
      else
        var now := st.owners[key];
        w.(store := WithOwner(st, key, o.(
          finalizer := now.finalizer, deleting := now.deleting,
          otherFinalizers := if now.deleting then now.otherFinalizers else o.otherFinalizers)))
    case MarkOwnerDeleted(key) =>
      if key !in st.owners then w else w.(store := WithOwner(st, key, st.owners[key].(deleting := true)))
    case DropOtherFinalizers(key) =>
      if key !in st.owners then w else w.(store := WithOwner(st, key, st.owners[key].(otherFinalizers := false)))
    case SliceReported(name, conditions) =>
      if name !in st.slices then w
      else w.(store := st.(slices := st.slices[name := st.slices[name].(conditions := conditions)]))
    case SliceMarkedDeleted(name) =>
      if name !in st.slices then w
      else w.(store := st.(slices := st.slices[name := st.slices[name].(terminating := true)]))
    case SliceGone(name) =>
      if name in st.slices && st.slices[name].terminating then w.(store := st.(slices := st.slices - {name})) else w
    case ForeignSlice(s) =>
      if s.name in st.slices || s.owner.Some? then w else w.(store := st.(slices := st.slices[s.name := s]))
    case Tick(t) => w.(store := st.(clock := t))
  }

  function Run(w: World, es: seq<Event>): World {
    if es == [] then w else Do(Run(w, es[..|es| - 1]), es[|es| - 1])
  }

  // ---- No slice is orphaned ----

  predicate Held(st: Store, key: OwnerKey) {
    key in st.owners && st.owners[key].finalizer
  }

  predicate LiveOf(st: Store, key: OwnerKey, name: string) {
    name in st.slices && st.slices[name].owner == Some(key) && !st.slices[name].terminating
  }

  /** Every slice that is owned and not terminating has an owner that exists and holds the cleanup
      finalizer. */
  ghost predicate NoOrphans(st: Store) {
    forall key, name :: LiveOf(st, key, name) ==> Held(st, key)
  }

  ghost predicate Covers(st: Store, key: OwnerKey, todo: seq<Slice>) {
    forall name :: LiveOf(st, key, name) ==> InTodo(todo, name)
  }

  ghost predicate InTodo(todo: seq<Slice>, name: string) {
    exists t :: t in todo && t.name == name && !t.terminating
  }

  ghost predicate AllFresh(key: OwnerKey, ss: seq<Slice>) {
    forall s :: s in ss ==> FreshFor(key, s)
  }

  /** What a pass may rely on between its operations. */
  ghost predicate PassKnows(key: OwnerKey, st: Store, pass: Pass) {
    match pass
    case Fetching => true
    case Listing(o) => o.finalizer ==> Held(st, key)
    case Cleaning(o, todo) => Covers(st, key, todo)
    case AddingFinalizer(_, _) => true
    case Deleting(ctx, _) => Held(st, key) && AllFresh(key, ctx.plan.toCreate)
    case Checking(_, todo, _, _) => Held(st, key) && AllFresh(key, todo)
    case Syncing(_, _, _) => Held(st, key)
    case Done(_) => true
  }

  ghost predicate WellNamed(st: Store) {
    forall n :: n in st.slices ==> st.slices[n].name == n
  }

  ghost predicate Inv(w: World) {
    && WellNamed(w.store)
    && NoOrphans(w.store)
    && forall key :: key in w.passes ==> PassKnows(key, w.store, w.passes[key].pass)
  }

  /** What every step leaves alone for the pass of `key` if it is not a step of that pass. */
  ghost predicate Respects(key: OwnerKey, st: Store, st': Store) {
    && (Held(st, key) ==> Held(st', key))
    && forall name :: LiveOf(st', key, name) ==> LiveOf(st, key, name)
  }

  lemma RespectedPassKnows(key: OwnerKey, st: Store, st': Store, pass: Pass)
    requires PassKnows(key, st, pass) && Respects(key, st, st')
    ensures PassKnows(key, st', pass)
  {
  }

  lemma {:induction false} CleanKnows(key: OwnerKey, st: Store, o: Owner, todo: seq<Slice>)
    requires Covers(st, key, todo)
    ensures PassKnows(key, st, NextClean(o, todo))
  {
    if todo != [] && todo[0].terminating {
      forall name | LiveOf(st, key, name) ensures InTodo(todo[1..], name) {
        var t :| t in todo && t.name == name && !t.terminating;
        assert t in todo[1..];
      }
      CleanKnows(key, st, o, todo[1..]);
    }
  }

  lemma {:induction false} DeleteKnows(key: OwnerKey, p: Policy, st: Store, ctx: Context, todo: seq<Slice>)
    requires Held(st, key) && AllFresh(key, ctx.plan.toCreate)
    ensures PassKnows(key, st, NextDelete(key, p, ctx, todo))
  {
    if todo != [] && todo[0].terminating { DeleteKnows(key, p, st, ctx, todo[1..]); }
  }

  lemma PlannedKnows(key: OwnerKey, p: Policy, st: Store, o: Owner, listed: seq<Slice>)
    requires Held(st, key)
    ensures PassKnows(key, st, Planned(key, p, o, listed))
  {
    var wanted := Wants(key, o.spec);
    if wanted.Some? {
      var w := wanted.value;
      WantedAreFresh(key, o.spec);
      ListMembers(w.slices, Index(listed), w.legacy, p, |w.slices|);
      var plan := Diff(w.slices, listed, w.legacy, p);
      DeleteKnows(key, p, st, Context(o, listed, w, plan), plan.toDelete);
    }
  }

  /** `st'` is a good store again, and every pass but that of `key` is respected. */
  ghost predicate Safe(key: OwnerKey, st: Store, st': Store) {
    WellNamed(st') && NoOrphans(st') && forall k :: k != key ==> Respects(k, st, st')
  }

  /** A change that keeps every cleanup finalizer and makes no owned slice live is safe for all. */
  lemma QuietChange(st: Store, st': Store)
    requires WellNamed(st) && NoOrphans(st) && WellNamed(st')
    requires forall k :: Held(st, k) ==> Held(st', k)
    requires forall k, n :: LiveOf(st', k, n) ==> LiveOf(st, k, n)
    ensures NoOrphans(st') && forall k :: Respects(k, st, st')
  {
  }

  lemma DeleteSafe(st: Store, name: string, r: Reply)
    requires WellNamed(st) && NoOrphans(st)
    ensures var st' := DeleteOp(st, name, r).0;
            && WellNamed(st') && NoOrphans(st') && (forall k :: Respects(k, st, st'))
            && (!DeleteOp(st, name, r).1.Error? ==> forall k :: !LiveOf(st', k, name))
  {
    var st' := DeleteOp(st, name, r).0;
    forall k, n | LiveOf(st', k, n) ensures LiveOf(st, k, n) {}
    forall k | Held(st, k) ensures Held(st', k) {}
    QuietChange(st, st');
  }

  lemma CreateSafe(key: OwnerKey, st: Store, s: Slice, r: Reply)
    requires WellNamed(st) && NoOrphans(st) && Held(st, key) && FreshFor(key, s)
    ensures Safe(key, st, CreateOp(st, s, r).0) && Held(CreateOp(st, s, r).0, key)
  {
    var st' := CreateOp(st, s, r).0;
    forall k, n | LiveOf(st', k, n) ensures LiveOf(st, k, n) || k == key {}
    forall k | Held(st, k) ensures Held(st', k) {}
  }

  lemma AddFinalizerSafe(key: OwnerKey, st: Store, r: Reply)
    requires WellNamed(st) && NoOrphans(st)
    ensures Safe(key, st, AddFinalizerOp(st, key, r).0)
    ensures AddFinalizerOp(st, key, r).1.Ok? ==> Held(AddFinalizerOp(st, key, r).0, key)
  {
    var st' := AddFinalizerOp(st, key, r).0;
    forall k, n | LiveOf(st', k, n) ensures LiveOf(st, k, n) {}
    forall k | Held(st, k) ensures Held(st', k) {}
    QuietChange(st, st');
  }

  lemma SuspendSafe(key: OwnerKey, st: Store, value: bool, r: Reply)
    requires WellNamed(st) && NoOrphans(st)
    ensures Safe(key, st, SuspendOp(st, key, value, r).0)
  {
    var st' := SuspendOp(st, key, value, r).0;
    forall k, n | LiveOf(st', k, n) ensures LiveOf(st, k, n) {}
    forall k | Held(st, k) ensures Held(st', k) {}
    QuietChange(st, st');
  }

  /** The finalizer is given up only by a clean-up whose list is empty. */
  lemma RemoveFinalizerSafe(key: OwnerKey, st: Store, r: Reply)
    requires WellNamed(st) && NoOrphans(st) && Covers(st, key, [])
    ensures Safe(key, st, RemoveFinalizerOp(st, key, r).0)
  {
    var st' := RemoveFinalizerOp(st, key, r).0;
    forall k, n | LiveOf(st', k, n) ensures LiveOf(st, k, n) && k != key {
      assert LiveOf(st, k, n) && !InTodo([], n);
    }
    forall k | k != key && Held(st, k) ensures Held(st', k) {}
  }

  /** One operation of a pass keeps the invariant for its own key and respects every other pass. */
  lemma PassStepSafe(key: OwnerKey, p: Policy, st: Store, pass: Pass, r: Reply)
    requires WellNamed(st) && NoOrphans(st) && PassKnows(key, st, pass)
    ensures var (st', pass') := Step(key, p, st, pass, r);
            Safe(key, st, st') && PassKnows(key, st', pass')
  {
    match pass
    case Fetching => QuietChange(st, st);
    case Listing(o) => ListingSafe(key, p, st, o, r);
    case Cleaning(o, todo) => CleaningSafe(key, p, st, o, todo, r);
    case AddingFinalizer(o, listed) =>
      AddFinalizerSafe(key, st, r);
      var (st', status) := AddFinalizerOp(st, key, r);
      if status.Ok? { PlannedKnows(key, p, st', st'.owners[key], listed); }
    case Deleting(ctx, todo) => DeletingSafe(key, p, st, ctx, todo, r);
    case Checking(ctx, todo, checked, skipped) => CheckingSafe(key, p, st, ctx, todo, checked, skipped, r);
    case Syncing(ctx, skipped, target) => SuspendSafe(key, st, target, r);
    case Done(_) => QuietChange(st, st);
  }

  lemma ListingSafe(key: OwnerKey, p: Policy, st: Store, o: Owner, r: Reply)
    requires WellNamed(st) && NoOrphans(st) && PassKnows(key, st, Listing(o))
    ensures var (st', pass') := Step(key, p, st, Listing(o), r);
            Safe(key, st, st') && PassKnows(key, st', pass')
  {
    QuietChange(st, st);
    if r.Items? && IsListing(st, key, r.slices) {
      forall name | LiveOf(st, key, name) ensures InTodo(r.slices, name) {
        assert st.slices[name] in r.slices;
      }
      CleanKnows(key, st, o, r.slices);
      if o.finalizer { PlannedKnows(key, p, st, o, r.slices); }
    }
  }

  lemma CleaningSafe(key: OwnerKey, p: Policy, st: Store, o: Owner, todo: seq<Slice>, r: Reply)
    requires WellNamed(st) && NoOrphans(st) && Covers(st, key, todo)
    ensures var (st', pass') := Step(key, p, st, Cleaning(o, todo), r);
            Safe(key, st, st') && PassKnows(key, st', pass')
  {
    if todo == [] {
      RemoveFinalizerSafe(key, st, r);
    } else {
      DeleteSafe(st, todo[0].name, r);
      var (st', status) := DeleteOp(st, todo[0].name, r);
      if !status.Error? {
        forall name | LiveOf(st', key, name) ensures InTodo(todo[1..], name) {
          assert LiveOf(st, key, name) && InTodo(todo, name);
          var t :| t in todo && t.name == name && !t.terminating;
          assert t in todo[1..];
        }
        CleanKnows(key, st', o, todo[1..]);
      }
    }
  }

  lemma DeletingSafe(key: OwnerKey, p: Policy, st: Store, ctx: Context, todo: seq<Slice>, r: Reply)
    requires WellNamed(st) && NoOrphans(st) && PassKnows(key, st, Deleting(ctx, todo))
    ensures var (st', pass') := Step(key, p, st, Deleting(ctx, todo), r);
            Safe(key, st, st') && PassKnows(key, st', pass')
  {
    QuietChange(st, st);
    if todo != [] {
      DeleteSafe(st, todo[0].name, r);
      DeleteKnows(key, p, DeleteOp(st, todo[0].name, r).0, ctx, todo[1..]);
    }
  }

  lemma CheckingSafe(key: OwnerKey, p: Policy, st: Store, ctx: Context, todo: seq<Slice>, checked: nat, skipped: bool,
                     r: Reply)
    requires WellNamed(st) && NoOrphans(st) && Held(st, key) && AllFresh(key, todo)
    ensures var (st', pass') := Step(key, p, st, Checking(ctx, todo, checked, skipped), r);
            Safe(key, st, st') && PassKnows(key, st', pass')
  {
    QuietChange(st, st);
    if todo != [] {
      CreateSafe(key, st, todo[0], r);
      assert AllFresh(key, todo[1..]);
    }
  }

  lemma EventSafe(w: World, e: Event)
    requires Inv(w)
    ensures Inv(Do(w, e))
  {
    var w' := Do(w, e);
    if e.Move? {
      if e.key in w.passes {
        var run := w.passes[e.key];
        PassStepSafe(e.key, run.policy, w.store, run.pass, e.reply);
        forall k | k in w'.passes && k != e.key ensures PassKnows(k, w'.store, w'.passes[k].pass) {
          RespectedPassKnows(k, w.store, w'.store, w.passes[k].pass);
        }
      }
    } else {
      OthersAreQuiet(w, e);
      QuietChange(w.store, w'.store);
      forall k | k in w.passes ensures PassKnows(k, w'.store, w.passes[k].pass) {
        RespectedPassKnows(k, w.store, w'.store, w.passes[k].pass);
      }
    }
  }

  /** Users, other controllers and the cluster never drop our finalizer or make an owned slice live. */
  lemma OthersAreQuiet(w: World, e: Event)
    requires WellNamed(w.store) && !e.Move?
    ensures var st, st' := w.store, Do(w, e).store;
            && WellNamed(st')
            && (forall k :: Held(st, k) ==> Held(st', k))
            && (forall k, n :: LiveOf(st', k, n) ==> LiveOf(st, k, n))
  {
    var st, st' := w.store, Do(w, e).store;
    forall k | Held(st, k) ensures Held(st', k) {}
    forall k, n | LiveOf(st', k, n) ensures LiveOf(st, k, n) {}
  }

  /** No slice is orphaned in any run: whatever requests fail or half-fail, whenever owners are
      deleted, recreated or changed, and however passes interleave. */
  lemma {:induction false} NoSliceIsOrphaned(w: World, es: seq<Event>)
    requires Inv(w)
    ensures Inv(Run(w, es)) && NoOrphans(Run(w, es).store)
  {
    if es != [] {
      NoSliceIsOrphaned(w, es[..|es| - 1]);
      EventSafe(Run(w, es[..|es| - 1]), es[|es| - 1]);
    }
  }

  /** An owner can vanish only once the deletion of all its slices has been requested. */
  lemma OwnersVanishClean(w: World, es: seq<Event>, key: OwnerKey, name: string)
    requires Inv(w) && key !in Run(w, es).store.owners
    requires name in Run(w, es).store.slices && Run(w, es).store.slices[name].owner == Some(key)
    ensures Run(w, es).store.slices[name].terminating
  {
    NoSliceIsOrphaned(w, es);
    assert LiveOf(Run(w, es).store, key, name) ==> Held(Run(w, es).store, key);
  }

  /** A pass run alone, as the imperative reconcilers run it, is one of these runs. */
  lemma {:induction false} DrainIsRun(key: OwnerKey, p: Policy, st: Store, pass: Pass, script: seq<Reply>)
    returns (es: seq<Event>)
    ensures var final := Drain(key, p, st, pass, script);
            Run(World(st, map[key := Running(p, pass)]), es) ==
            World(final.store, map[key := Running(p, Done(final.result))])
    decreases Phase(pass), Work(pass), ChecksLeft(pass)
  {
    if pass.Done? {
      es := [];
    } else {
      StepShrinks(key, p, st, pass, Head(script));
      var (st', pass') := Step(key, p, st, pass, Head(script));
      var rest := DrainIsRun(key, p, st', pass', Tail(script));
      var w := World(st, map[key := Running(p, pass)]);
      assert Do(w, Move(key, Head(script))) == World(st', map[key := Running(p, pass')]);
      es := [Move(key, Head(script))] + rest;
      RunFirst(w, Move(key, Head(script)), rest);
    }
  }

  lemma {:induction false} RunFirst(w: World, e: Event, es: seq<Event>)
    ensures Run(w, [e] + es) == Run(Do(w, e), es)
  {
    if es == [] {
      assert ([e] + es)[..0] == [];
    } else {
      RunFirst(w, e, es[..|es| - 1]);
      assert ([e] + es)[..|es|] == [e] + es[..|es| - 1];
    }
  }

  /** So a reconcile leaves no orphan behind either, on any exit path. */
  lemma ReconcileLeavesNoOrphans(key: OwnerKey, p: Policy, st: Store, script: seq<Reply>)
    requires WellNamed(st) && NoOrphans(st)
    ensures NoOrphans(Drain(key, p, st, Fetching, script).store)
  {
    var es := DrainIsRun(key, p, st, Fetching, script);
    NoSliceIsOrphaned(World(st, map[key := Running(p, Fetching)]), es);
  }
}
