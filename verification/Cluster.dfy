/** The API server, and one reconcile pass as a machine of single store operations
    (internal/controller/jobset_slice_controller.go, lws_slice_controller.go, slice_shared.go). */
module Cluster {
  import opened Base
  import opened Slices
  import opened Desired

  /** A JobSet or LeaderWorkerSet object: our cleanup finalizer, whether others hold finalizers too,
      the deletion mark, the terminal state of a JobSet, its suspend field, the provisioning mode
      label and the specification. */
  datatype Owner = Owner(
    finalizer: bool, otherFinalizers: bool, deleting: bool, finished: bool, suspend: Option<bool>, mode: string,
    spec: OwnerSpec)

  datatype Store = Store(owners: map<OwnerKey, Owner>, slices: map<string, Slice>, clock: int)

  /** What the network does to one request: answer it, lose it, or apply it and lose the answer.
      A listing is answered with the items in some order. */
  datatype Reply = Ack | Lost | Unacked | Items(slices: seq<Slice>)

  datatype Reported = Ok | NotFound | Error

  function Answer(r: Reply): Reported { if r.Unacked? then Error else Ok }

  // ---- Store operations ----

  function DeleteOp(st: Store, name: string, r: Reply): (Store, Reported) {
    if r.Lost? then (st, Error)
    else if name !in st.slices then (st, if r.Unacked? then Error else NotFound)
    else (st.(slices := st.slices[name := st.slices[name].(terminating := true)]), Answer(r))
  }

  function CreateOp(st: Store, s: Slice, r: Reply): (Store, Reported) {
    if r.Lost? || s.name in st.slices then (st, Error)
    else (st.(slices := st.slices[s.name := s.(created := st.clock)]), Answer(r))
  }

  /** Whether the partition index has an entry for `id`. */
  predicate Holds(st: Store, id: string) {
    exists n :: n in st.slices && id in st.slices[n].partitions
  }

  /** Adding a finalizer is refused once the object is being deleted. */
  function AddFinalizerOp(st: Store, key: OwnerKey, r: Reply): (Store, Reported) {
    if r.Lost? || key !in st.owners || st.owners[key].deleting then (st, Error)
    else (st.(owners := st.owners[key := st.owners[key].(finalizer := true)]), Answer(r))
  }

  /** Removing the last finalizer of an object being deleted makes it vanish. */
  function RemoveFinalizerOp(st: Store, key: OwnerKey, r: Reply): (Store, Reported) {
    if r.Lost? || key !in st.owners then (st, Error)
    else
      var o := st.owners[key].(finalizer := false);
      (st.(owners := if o.deleting && !o.otherFinalizers then st.owners - {key} else st.owners[key := o]), Answer(r))
  }

  function SuspendOp(st: Store, key: OwnerKey, value: bool, r: Reply): (Store, Reported) {
    if r.Lost? || key !in st.owners then (st, Error)
    else (st.(owners := st.owners[key := st.owners[key].(suspend := Some(value))]), Answer(r))
  }

  /** `items` is a complete and current list of the slices labelled with `key`. */
  predicate IsListing(st: Store, key: OwnerKey, items: seq<Slice>) {
    && DistinctNames(items)
    && (forall s :: s in items ==> s.owner == Some(key) && s.name in st.slices && st.slices[s.name] == s)
    && (forall n :: n in st.slices && st.slices[n].owner == Some(key) ==> st.slices[n] in items)
  }

  // ---- One pass ----

  datatype Result = Succeeded(requeueAfter: int) | Failed

  /** What a pass has computed when it starts to change slices. */
  datatype Context = Context(owner: Owner, listed: seq<Slice>, wanted: Wanted, plan: Plan)

  /** A pass between two store operations; each constructor but the last names the next one. */
  datatype Pass =
    | Fetching
    | Listing(owner: Owner)
    | Cleaning(owner: Owner, todo: seq<Slice>)
    | AddingFinalizer(owner: Owner, listed: seq<Slice>)
    | Deleting(ctx: Context, todo: seq<Slice>)
    | Checking(ctx: Context, todo: seq<Slice>, checked: nat, skipped: bool)
    | Syncing(ctx: Context, skipped: bool, target: bool)
    | Done(result: Result)

  predicate MustCleanUp(key: OwnerKey, o: Owner) {
    o.deleting || (key.kind.JobSetKind? && o.finished)
  }

  function NextClean(o: Owner, todo: seq<Slice>): Pass {
    if todo == [] then (if o.finalizer then Cleaning(o, []) else Done(Succeeded(0)))
    else if todo[0].terminating then NextClean(o, todo[1..])
    else Cleaning(o, todo)
  }

  function AfterList(key: OwnerKey, p: Policy, o: Owner, listed: seq<Slice>): Pass {
    if MustCleanUp(key, o) then NextClean(o, listed)
    else if key.kind.LwsKind? && o.mode != "async" then Done(Succeeded(0))
    else if !o.finalizer then AddingFinalizer(o, listed)
    else Planned(key, p, o, listed)
  }

  function Planned(key: OwnerKey, p: Policy, o: Owner, listed: seq<Slice>): Pass {
    match Wants(key, o.spec)
    case None => Done(Succeeded(0))
    case Some(w) =>
      var plan := Diff(w.slices, listed, w.legacy, p);
      NextDelete(key, p, Context(o, listed, w, plan), plan.toDelete)
  }

  function NextDelete(key: OwnerKey, p: Policy, ctx: Context, todo: seq<Slice>): Pass {
    if todo == [] then NextCreate(key, p, ctx, ctx.plan.toCreate, false)
    else if todo[0].terminating then NextDelete(key, p, ctx, todo[1..])
    else Deleting(ctx, todo)
  }

  function NextCreate(key: OwnerKey, p: Policy, ctx: Context, todo: seq<Slice>, skipped: bool): Pass {
    if todo == [] then AfterApply(key, p, ctx, skipped) else Checking(ctx, todo, 0, skipped)
  }

  function AfterApply(key: OwnerKey, p: Policy, ctx: Context, skipped: bool): Pass {
    if key.kind.JobSetKind? && ctx.owner.mode == "sync" then
      var ready := AllReady(ctx.wanted.slices, ctx.listed, ctx.wanted.legacy, p.unknownActiveIsReady);
      var suspended := ctx.owner.suspend == Some(true);
      if ready == suspended then Syncing(ctx, skipped, !ready) else Finish(ctx, skipped)
    else Finish(ctx, skipped)
  }

  function Finish(ctx: Context, skipped: bool): Pass {
    Done(Succeeded(MinDuration(ctx.plan.requeueAfter, if skipped then SECOND else 0)))
  }

  /** One store operation of the pass of `key`, with the reply it gets. */
  function Step(key: OwnerKey, p: Policy, st: Store, pass: Pass, r: Reply): (Store, Pass) {
    match pass
    case Fetching =>
      if r.Lost? || r.Unacked? then (st, Done(Failed))
      else if key !in st.owners then (st, Done(Succeeded(0)))
      else (st, Listing(st.owners[key]))
    case Listing(o) =>
      if r.Items? && IsListing(st, key, r.slices) then (st, AfterList(key, p, o, r.slices)) else (st, Done(Failed))
    case Cleaning(o, todo) =>
      if todo == [] then
        var (st', status) := RemoveFinalizerOp(st, key, r);
        (st', Done(if status.Ok? then Succeeded(0) else Failed))
      else
        var (st', status) := DeleteOp(st, todo[0].name, r);
        (st', if status.Error? then Done(Failed) else NextClean(o, todo[1..]))
    case AddingFinalizer(o, listed) =>
      var (st', status) := AddFinalizerOp(st, key, r);
      (st', if status.Ok? then Planned(key, p, st'.owners[key], listed) else Done(Failed))
    case Deleting(ctx, todo) =>
      if todo == [] then (st, Done(Failed))
      else
        var (st', status) := DeleteOp(st, todo[0].name, r);
        (st', if status.Ok? then NextDelete(key, p, ctx, todo[1..]) else Done(Failed))
    case Checking(ctx, todo, checked, skipped) =>
      if todo == [] then (st, Done(Failed))
      else if checked < |todo[0].partitions| then
        if r.Lost? || r.Unacked? then (st, Done(Failed))
        else if Holds(st, todo[0].partitions[checked]) then (st, NextCreate(key, p, ctx, todo[1..], true))
        else (st, Checking(ctx, todo, checked + 1, skipped))
      else
        var (st', status) := CreateOp(st, todo[0], r);
        (st', if status.Ok? then NextCreate(key, p, ctx, todo[1..], skipped) else Done(Failed))
    case Syncing(ctx, skipped, target) =>
      var (st', status) := SuspendOp(st, key, target, r);
      (st', if status.Ok? then Finish(ctx, skipped) else Done(Failed))
    case Done(_) => (st, pass)
  }

  // ---- A whole pass against a script of replies ----

  function Head(script: seq<Reply>): Reply { if script == [] then Ack else script[0] }

  function Tail(script: seq<Reply>): seq<Reply> { if script == [] then [] else script[1..] }

  datatype Final = Final(store: Store, result: Result, script: seq<Reply>)

  function Phase(pass: Pass): nat {
    match pass
    case Fetching => 7
    case Listing(_) => 6
    case Cleaning(_, _) => 5
    case AddingFinalizer(_, _) => 4
    case Deleting(_, _) => 3
    case Checking(_, _, _, _) => 2
    case Syncing(_, _, _) => 1
    case Done(_) => 0
  }

  function Work(pass: Pass): nat {
    if pass.Cleaning? || pass.Deleting? || pass.Checking? then |pass.todo| else 0
  }

  function ChecksLeft(pass: Pass): nat {
    if pass.Checking? && pass.todo != [] && pass.checked <= |pass.todo[0].partitions|
    then |pass.todo[0].partitions| - pass.checked
    else 0
  }

  lemma {:induction false} SkippingShrinks(key: OwnerKey, p: Policy, o: Owner, ctx: Context, todo: seq<Slice>)
    ensures Phase(NextClean(o, todo)) <= 5 && Work(NextClean(o, todo)) <= |todo|
    ensures todo == [] ==> NextClean(o, todo) == Cleaning(o, []) || NextClean(o, todo).Done?
    ensures Phase(NextDelete(key, p, ctx, todo)) <= 3
    ensures NextDelete(key, p, ctx, todo).Deleting? ==> Work(NextDelete(key, p, ctx, todo)) <= |todo|
  {
    if todo != [] { SkippingShrinks(key, p, o, ctx, todo[1..]); }
  }

  /** Every operation brings the pass nearer to its end. */
  lemma StepShrinks(key: OwnerKey, p: Policy, st: Store, pass: Pass, r: Reply)
    requires !pass.Done?
    ensures var pass' := Step(key, p, st, pass, r).1;
            || Phase(pass') < Phase(pass)
            || (Phase(pass') == Phase(pass) && Work(pass') < Work(pass))
            || (Phase(pass') == Phase(pass) && Work(pass') == Work(pass) && ChecksLeft(pass') < ChecksLeft(pass))
  {
    match pass
    case Listing(o) =>
      if r.Items? {
        ShrinkPlanned(key, p, o, r.slices);
        SkippingShrinks(key, p, o, NoContext(o), r.slices);
      }
    case Cleaning(o, todo) => if todo != [] { SkippingShrinks(key, p, o, NoContext(o), todo[1..]); }
    case AddingFinalizer(o, listed) =>
      var st' := AddFinalizerOp(st, key, r).0;
      if key in st'.owners { ShrinkPlanned(key, p, st'.owners[key], listed); }
    case Deleting(ctx, todo) => if todo != [] { SkippingShrinks(key, p, ctx.owner, ctx, todo[1..]); }
    case Checking(ctx, todo, checked, skipped) =>
      if todo != [] { CheckingShrinks(key, p, st, ctx, todo, checked, skipped, r); }
    case _ =>
  }

  lemma CheckingShrinks(key: OwnerKey, p: Policy, st: Store, ctx: Context, todo: seq<Slice>, checked: nat,
                        skipped: bool, r: Reply)
    requires todo != []
    ensures var pass' := Step(key, p, st, Checking(ctx, todo, checked, skipped), r).1;
            || Phase(pass') < 2
            || (Phase(pass') == 2 && Work(pass') < |todo|)
            || (Phase(pass') == 2 && Work(pass') == |todo|
                && ChecksLeft(pass') < ChecksLeft(Checking(ctx, todo, checked, skipped)))
  {
  }

  ghost function NoContext(o: Owner): Context { Context(o, [], Wanted([], map[]), Plan([], [], 0)) }

  lemma ShrinkPlanned(key: OwnerKey, p: Policy, o: Owner, listed: seq<Slice>)
    ensures Phase(Planned(key, p, o, listed)) <= 3
  {
    var wanted := Wants(key, o.spec);
    if wanted.Some? {
      var plan := Diff(wanted.value.slices, listed, wanted.value.legacy, p);
      SkippingShrinks(key, p, o, Context(o, listed, wanted.value, plan), plan.toDelete);
    }
  }

  /** The pass run to its end, alone, with the given replies; after the last one every request is
      answered. */
  function Drain(key: OwnerKey, p: Policy, st: Store, pass: Pass, script: seq<Reply>): Final
    decreases Phase(pass), Work(pass), ChecksLeft(pass)
  {
    if pass.Done? then Final(st, pass.result, script)
    else
      StepShrinks(key, p, st, pass, Head(script));
      var (st', pass') := Step(key, p, st, pass, Head(script));
      Drain(key, p, st', pass', Tail(script))
  }
}
