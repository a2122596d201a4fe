/** Partition exclusivity: no two slices share a partition. */
module Exclusive {
  import opened Base
  import opened Labels
  import opened Names
  import opened Slices
  import opened Desired
  import opened Cluster
  import opened World

  predicate Overlap(a: Slice, b: Slice) {
    exists id :: id in a.partitions && id in b.partitions
  }

  ghost predicate Disjoint(st: Store) {
    forall m, n :: m in st.slices && n in st.slices && m != n ==> !Overlap(st.slices[m], st.slices[n])
  }

  /** The IDs a pass has found free for the slice it is about to create. */
  function Checked(pass: Pass): seq<string> {
    if pass.Checking? && pass.todo != [] && pass.checked <= |pass.todo[0].partitions|
    then pass.todo[0].partitions[..pass.checked]
    else []
  }

  ghost predicate InBounds(pass: Pass) {
    pass.Checking? ==> pass.todo != [] && pass.checked <= |pass.todo[0].partitions|
  }

  /** Slices are pairwise disjoint, and every check made so far still tells the truth. */
  ghost predicate Exclusive(w: World) {
    && Disjoint(w.store)
    && forall key :: key in w.passes ==>
         InBounds(w.passes[key].pass)
         && forall id :: id in Checked(w.passes[key].pass) ==> !Holds(w.store, id)
  }

  /** The slice an event brings into the store, if any. */
  function Created(w: World, e: Event): Option<Slice> {
    match e
    case Move(key, r) =>
      if key in w.passes && w.passes[key].pass.Checking? then
        var pass := w.passes[key].pass;
        if pass.todo == [] || pass.checked < |pass.todo[0].partitions| || r.Lost? then None
        else if pass.todo[0].name in w.store.slices then None
        else Some(pass.todo[0])
      else None
    case ForeignSlice(s) => if s.name in w.store.slices || s.owner.Some? then None else Some(s)
    case _ => None
  }

  predicate MadeBy(e: Event, key: OwnerKey) { e.Move? && e.key == key }

  /** The event creates a slice on an ID that another pass has already checked, or, if it is not a
      step of ours at all, on an ID some slice holds. */
  ghost predicate Intrudes(w: World, e: Event) {
    Created(w, e).Some?
    && ((exists key, id :: key in w.passes && !MadeBy(e, key) && id in Checked(w.passes[key].pass)
                           && id in Created(w, e).value.partitions)
        || (e.ForeignSlice? && exists id :: id in Created(w, e).value.partitions && Holds(w.store, id)))
  }

  /** What an event does to the slices, as far as partitions go: at most one more slice. */
  lemma SlicesAfter(w: World, e: Event)
    ensures var st, st' := w.store, Do(w, e).store;
            && (forall n :: n in st'.slices && (Created(w, e).None? || n != Created(w, e).value.name) ==>
                  n in st.slices && st'.slices[n].partitions == st.slices[n].partitions)
            && (Created(w, e).Some? ==>
                  var c := Created(w, e).value;
                  c.name !in st.slices && c.name in st'.slices && st'.slices[c.name].partitions == c.partitions
                  && forall n :: n in st.slices ==> n in st'.slices && st'.slices[n] == st.slices[n])
  {
    if e.Move? && e.key in w.passes {
      var run := w.passes[e.key];
      match run.pass
      case Checking(ctx, todo, checked, skipped) =>
      case _ =>
    }
  }

  /** What the moving pass knows after its step is what the store says. */
  lemma MoverChecks(key: OwnerKey, p: Policy, st: Store, pass: Pass, r: Reply)
    requires InBounds(pass) && forall id :: id in Checked(pass) ==> !Holds(st, id)
    ensures var (st', pass') := Step(key, p, st, pass, r);
            InBounds(pass') && forall id :: id in Checked(pass') ==> !Holds(st', id)
  {
    match pass
    case Checking(ctx, todo, checked, skipped) =>
      if checked < |todo[0].partitions| {
        assert todo[0].partitions[..checked + 1] == todo[0].partitions[..checked] + [todo[0].partitions[checked]];
      }
    case Listing(o) =>
      if r.Items? {
        CleanNotChecking(o, r.slices);
        PlannedBounds(key, p, o, r.slices);
      }
    case Cleaning(o, todo) => if todo != [] { CleanNotChecking(o, todo[1..]); }
    case AddingFinalizer(o, listed) =>
      var st' := AddFinalizerOp(st, key, r).0;
      if key in st'.owners { PlannedBounds(key, p, st'.owners[key], listed); }
    case Deleting(ctx, todo) => if todo != [] { DeleteBounds(key, p, ctx, todo[1..]); }
    case _ =>
  }

  lemma {:induction false} CleanNotChecking(o: Owner, todo: seq<Slice>)
    ensures !NextClean(o, todo).Checking?
  {
    if todo != [] { CleanNotChecking(o, todo[1..]); }
  }

  lemma {:induction false} DeleteBounds(key: OwnerKey, p: Policy, ctx: Context, todo: seq<Slice>)
    ensures InBounds(NextDelete(key, p, ctx, todo)) && Checked(NextDelete(key, p, ctx, todo)) == []
  {
    if todo != [] { DeleteBounds(key, p, ctx, todo[1..]); }
  }

  lemma PlannedBounds(key: OwnerKey, p: Policy, o: Owner, listed: seq<Slice>)
    ensures InBounds(Planned(key, p, o, listed)) && Checked(Planned(key, p, o, listed)) == []
  {
    var wanted := Wants(key, o.spec);
    if wanted.Some? {
      var plan := Diff(wanted.value.slices, listed, wanted.value.legacy, p);
      DeleteBounds(key, p, Context(o, listed, wanted.value, plan), plan.toDelete);
    }
  }

  lemma HoldsAfter(w: World, e: Event, id: string)
    ensures Holds(Do(w, e).store, id) ==>
              Holds(w.store, id) || (Created(w, e).Some? && id in Created(w, e).value.partitions)
    ensures Created(w, e).Some? && id in Created(w, e).value.partitions ==> Holds(Do(w, e).store, id)
  {
    SlicesAfter(w, e);
  }

  lemma NewSliceIsAlone(w: World, e: Event)
    requires Exclusive(w) && !Intrudes(w, e) && Created(w, e).Some?
    ensures forall id :: id in Created(w, e).value.partitions ==> !Holds(w.store, id)
  {
    if e.Move? {
      var pass := w.passes[e.key].pass;
      assert Checked(pass) == pass.todo[0].partitions;
    }
  }

  lemma DisjointAfter(w: World, e: Event)
    requires Exclusive(w) && !Intrudes(w, e)
    ensures Disjoint(Do(w, e).store)
  {
    SlicesAfter(w, e);
    if Created(w, e).Some? { NewSliceIsAlone(w, e); }
    var st, st' := w.store, Do(w, e).store;
    forall m, n | m in st'.slices && n in st'.slices && m != n ensures !Overlap(st'.slices[m], st'.slices[n]) {
      if m in st.slices && n in st.slices {
        assert !Overlap(st.slices[m], st.slices[n]);
      }
    }
  }

  /** One event keeps exclusivity exactly when it does not intrude: the per-partition check before a
      create protects against everything but a create that lands between the two. */
  lemma StepIsExclusiveIff(w: World, e: Event)
    requires Exclusive(w)
    ensures Exclusive(Do(w, e)) <==> !Intrudes(w, e)
  {
    var w' := Do(w, e);
    if Intrudes(w, e) {
      var c := Created(w, e).value;
      SlicesAfter(w, e);
      if key, id :| key in w.passes && !MadeBy(e, key) && id in Checked(w.passes[key].pass) && id in c.partitions {
        HoldsAfter(w, e, id);
        assert w'.passes[key] == w.passes[key];
      } else {
        var id :| id in c.partitions && Holds(w.store, id);
        var n :| n in w.store.slices && id in w.store.slices[n].partitions;
        assert Overlap(w'.store.slices[n], w'.store.slices[c.name]);
      }
    } else {
      DisjointAfter(w, e);
      forall key | key in w'.passes
        ensures InBounds(w'.passes[key].pass)
        ensures forall id :: id in Checked(w'.passes[key].pass) ==> !Holds(w'.store, id)
      {
        if MadeBy(e, key) {
          MoverChecks(key, w.passes[key].policy, w.store, w.passes[key].pass, e.reply);
        } else if key in w.passes && w'.passes[key] == w.passes[key] {
          forall id | id in Checked(w'.passes[key].pass) ensures !Holds(w'.store, id) { HoldsAfter(w, e, id); }
        }
      }
    }
  }

  /** From pairwise disjoint slices, every interleaving of JobSet and LeaderWorkerSet passes, users
      and failures keeps slices pairwise disjoint, as long as no create lands on an ID between
      another pass's check of that ID and its create. */
  lemma {:induction false} RunsAreExclusive(w: World, es: seq<Event>)
    requires Exclusive(w)
    requires forall i :: 0 <= i < |es| ==> !Intrudes(Run(w, es[..i]), es[i])
    ensures Exclusive(Run(w, es)) && Disjoint(Run(w, es).store)
  {
    if es != [] {
      var init, last := es[..|es| - 1], es[|es| - 1];
      forall i | 0 <= i < |init| ensures !Intrudes(Run(w, init[..i]), init[i]) { assert init[..i] == es[..i]; }
      RunsAreExclusive(w, init);
      StepIsExclusiveIff(Run(w, init), last);
    }
  }

  lemma {:induction false} RunJoin(w: World, a: seq<Event>, b: seq<Event>)
    ensures Run(w, a + b) == Run(Run(w, a), b)
  {
    if b == [] {
      assert a + b == a;
    } else {
      assert (a + b)[..|a + b| - 1] == a + b[..|b| - 1];
      RunJoin(w, a, b[..|b| - 1]);
    }
  }

  /** An owner that has its finalizer and asks for the one slice `s`, on one cube. */
  predicate AsksForOne(key: OwnerKey, o: Owner, s: Slice, cube: string) {
    && o.finalizer && !o.deleting && !o.finished && o.mode == "async"
    && Wants(key, o.spec).Some? && Wants(key, o.spec).value.slices == [s] && s.partitions == [cube]
  }

  /** A JobSet with one job of one replica, for which one cube is selected. */
  function CubeJobSet(cube: string): JobSet {
    JobSet("00000000", [ReplicatedJob("w", 1, Some(map[ACCELERATOR := "tpu7x"]), Some(map[TOPOLOGY := "4x4x4"]))],
           Parsed(map["w" := [[cube]]]))
  }

  /** A LeaderWorkerSet with one worker group, for which one cube is selected. */
  function CubeLws(cube: string): Lws {
    Lws("00000000", Some(1), None, Template(map[ACCELERATOR := "tpu7x"], map[]), LwsParsed([], [[cube]]))
  }

  function Async(spec: OwnerSpec): Owner { Owner(true, false, false, false, None, "async", spec) }

  function CubeSlot(cube: string): Slot { Slot(CubeJobSet(cube).jobs[0], 0) }

  lemma JobSetAsksForOne(key: OwnerKey, cube: string)
    requires key.kind.JobSetKind?
    ensures AsksForOne(key, Async(JobSetSpec(CubeJobSet(cube))),
                       SlotSlice(key, "00000000", map["w" := [[cube]]], CubeSlot(cube)), cube)
  {
    var js, cubes := CubeJobSet(cube), map["w" := [[cube]]];
    OneSlot(js.jobs[0]);
    assert js.jobs == [js.jobs[0]];
    OneSlotWants(key, js, cubes, CubeSlot(cube), cube);
  }

  lemma OneSlot(rj: ReplicatedJob)
    requires Eligible(rj) && rj.replicas == 1
    ensures Slots([rj]) == [Slot(rj, 0)]
  {
    assert [rj][..0] == [] && SlotsOf(rj) == FirstSlots(rj, 1) == [Slot(rj, 0)];
  }

  lemma OneSlotWants(key: OwnerKey, js: JobSet, cubes: map<string, seq<seq<string>>>, x: Slot, cube: string)
    requires Slots(js.jobs) == [x] && js.selection == Parsed(cubes) && SlotCubes(cubes, x) == [cube]
    ensures JobSetWants(key, js).Some? && JobSetWants(key, js).value.slices == [SlotSlice(key, js.uid, cubes, x)]
  {
    assert [x][..0] == [] && [cube][..0] == [];
    assert SlotIds(cubes, [x]) == [cube] && NoRepeat([cube]);
  }

  lemma LwsAsksForOne(key: OwnerKey, cube: string)
    requires key.kind.LwsKind?
    ensures AsksForOne(key, Async(LwsSpec(CubeLws(cube))), WorkerSlice(key, CubeLws(cube), 0), cube)
  {
    var lws := CubeLws(cube);
    assert LwsUpTo(key, lws, 0).slices == [];
    assert LwsWants(key, lws) == Some(LwsUpTo(key, lws, 1));
  }

  /** From its first step to the moment it has found its cube free and is about to create its slice. */
  function Approach(key: OwnerKey, p: Policy): seq<Event> {
    [Begin(key, p), Move(key, Ack), Move(key, Items([])), Move(key, Ack)]
  }

  lemma OnePlanned(key: OwnerKey, o: Owner, s: Slice, cube: string, p: Policy)
    requires AsksForOne(key, o, s, cube)
    ensures var pass := Planned(key, p, o, []);
            pass.Checking? && pass.todo == [s] && pass.checked == 0
  {
    var w := Wants(key, o.spec).value;
    NothingListed(w.slices, w.legacy, p, 1);
  }

  lemma OneApproaches(w: World, key: OwnerKey, o: Owner, s: Slice, cube: string, p: Policy) returns (pass: Pass)
    requires key in w.store.owners && w.store.owners[key] == o && AsksForOne(key, o, s, cube)
    requires w.store.slices == map[] && key !in w.passes
    ensures pass.Checking? && pass.todo == [s] && pass.checked == 1
    ensures Run(w, Approach(key, p)) == w.(passes := w.passes[key := Running(p, pass)])
  {
    OnePlanned(key, o, s, cube, p);
    var planned := Planned(key, p, o, []);
    OneOpening(w, key, o, p);
    pass := planned.(checked := 1);
    FreeCheck(w, key, p, planned);
    FourEvents(w, Begin(key, p), Move(key, Ack), Move(key, Items([])), Move(key, Ack));
  }

  lemma FreeCheck(w: World, key: OwnerKey, p: Policy, pass: Pass)
    requires w.store.slices == map[]
    requires pass.Checking? && pass.todo != [] && pass.checked == 0 && |pass.todo[0].partitions| == 1
    ensures Do(w.(passes := w.passes[key := Running(p, pass)]), Move(key, Ack)) ==
            w.(passes := w.passes[key := Running(p, pass.(checked := 1))])
  {
    assert Step(key, p, w.store, pass, Ack) == (w.store, pass.(checked := 1));
  }

  lemma OneOpening(w: World, key: OwnerKey, o: Owner, p: Policy)
    requires key in w.store.owners && w.store.owners[key] == o && w.store.slices == map[] && key !in w.passes
    requires o.finalizer && !o.deleting && !o.finished && o.mode == "async"
    ensures Do(Do(Do(w, Begin(key, p)), Move(key, Ack)), Move(key, Items([]))) ==
            w.(passes := w.passes[key := Running(p, Planned(key, p, o, []))])
  {
    var w1 := Do(w, Begin(key, p));
    var w2 := Do(w1, Move(key, Ack));
    assert w2 == w.(passes := w.passes[key := Running(p, Listing(o))]);
    assert IsListing(w.store, key, []);
  }

  lemma FourEvents(w: World, a: Event, b: Event, c: Event, d: Event)
    ensures Run(w, [a, b, c, d]) == Do(Do(Do(Do(w, a), b), c), d)
  {
    TwoEvents(w, a, b);
    TwoEvents(Run(w, [a, b]), c, d);
    RunJoin(w, [a, b], [c, d]);
    assert [a, b] + [c, d] == [a, b, c, d];
  }

  lemma TwoEvents(w: World, a: Event, b: Event)
    ensures Run(w, [a, b]) == Do(Do(w, a), b)
  {
    assert [a, b][..1] == [a] && [a][..0] == [];
    assert Run(w, [a]) == Do(Run(w, []), a);
  }

  /** Without that proviso it is false, from the very start: with a JobSet and a LeaderWorkerSet, no slice and no
      pass, each pass looks its cube up before the other creates, and the two end up sharing it. */
  lemma RacingPassesOverlap(p: Policy, cube: string)
    ensures var ka, kb := OwnerKey(JobSetKind, "ns", "a"), OwnerKey(LwsKind, "ns", "b");
            var owners := map[ka := Async(JobSetSpec(CubeJobSet(cube))), kb := Async(LwsSpec(CubeLws(cube)))];
            var w := World(Store(owners, map[], 0), map[]);
            && Exclusive(w)
            && !Disjoint(Run(w, Approach(ka, p) + Approach(kb, p) + [Move(ka, Ack), Move(kb, Ack)]).store)
  {
    var ka, kb := OwnerKey(JobSetKind, "ns", "a"), OwnerKey(LwsKind, "ns", "b");
    var oa, ob := Async(JobSetSpec(CubeJobSet(cube))), Async(LwsSpec(CubeLws(cube)));
    var a := SlotSlice(ka, "00000000", map["w" := [[cube]]], CubeSlot(cube));
    var b := WorkerSlice(kb, CubeLws(cube), 0);
    var w := World(Store(map[ka := oa, kb := ob], map[], 0), map[]);
    JobSetAsksForOne(ka, cube);
    LwsAsksForOne(kb, cube);
    KindsNeverMeet("a", "00000000", "w", 0, "b", "00000000", "worker", 0);
    TwoOwnersRace(w, ka, oa, a, kb, ob, b, cube, p);
  }

  lemma TwoOwnersRace(w: World, ka: OwnerKey, oa: Owner, a: Slice, kb: OwnerKey, ob: Owner, b: Slice, cube: string,
                      p: Policy)
    requires ka != kb && a.name != b.name && w.store.slices == map[] && w.passes == map[]
    requires ka in w.store.owners && w.store.owners[ka] == oa && AsksForOne(ka, oa, a, cube)
    requires kb in w.store.owners && w.store.owners[kb] == ob && AsksForOne(kb, ob, b, cube)
    ensures !Disjoint(Run(w, Approach(ka, p) + Approach(kb, p) + [Move(ka, Ack), Move(kb, Ack)]).store)
  {
    var pa := OneApproaches(w, ka, oa, a, cube, p);
    var w1 := w.(passes := map[ka := Running(p, pa)]);
    var pb := OneApproaches(w1, kb, ob, b, cube, p);
    var w2 := w1.(passes := w1.passes[kb := Running(p, pb)]);
    RunJoin(w, Approach(ka, p), Approach(kb, p));
    RunJoin(w, Approach(ka, p) + Approach(kb, p), [Move(ka, Ack), Move(kb, Ack)]);
    TwoEvents(w2, Move(ka, Ack), Move(kb, Ack));
    BothCreate(w2, ka, kb, cube);
  }

  lemma BothCreate(w: World, ka: OwnerKey, kb: OwnerKey, cube: string)
    requires ka != kb && ka in w.passes && kb in w.passes && w.store.slices == map[]
    requires forall k :: k in {ka, kb} ==>
               var pass := w.passes[k].pass;
               pass.Checking? && |pass.todo| == 1 && pass.checked == 1 && pass.todo[0].partitions == [cube]
    requires w.passes[ka].pass.todo[0].name != w.passes[kb].pass.todo[0].name
    ensures !Disjoint(Do(Do(w, Move(ka, Ack)), Move(kb, Ack)).store)
  {
    var a, b := w.passes[ka].pass.todo[0], w.passes[kb].pass.todo[0];
    var w1 := Do(w, Move(ka, Ack));
    assert w1.store.slices == map[a.name := a.(created := w.store.clock)] && w1.passes[kb] == w.passes[kb];
    var w2 := Do(w1, Move(kb, Ack));
    assert a.name in w2.store.slices && b.name in w2.store.slices;
    assert cube in w2.store.slices[a.name].partitions && cube in w2.store.slices[b.name].partitions;
    assert Overlap(w2.store.slices[a.name], w2.store.slices[b.name]);
  }

  // ---- One pass against a frozen index ----

  predicate Blocked(frozen: Store, s: Slice) {
    exists id :: id in s.partitions && Holds(frozen, id)
  }

  /** The create loop of one pass whose overlap checks all read the store `frozen`; it ends early if
      a name is taken. */
  function FrozenCreates(frozen: Store, st: Store, todo: seq<Slice>): Store
    decreases |todo|
  {
    if todo == [] then st
    else if Blocked(frozen, todo[0]) then FrozenCreates(frozen, st, todo[1..])
    else if todo[0].name in st.slices then st
    else FrozenCreates(frozen, st.(slices := st.slices[todo[0].name := todo[0].(created := st.clock)]), todo[1..])
  }

  ghost predicate PairwiseDisjoint(ss: seq<Slice>) {
    forall i, j :: 0 <= i < j < |ss| ==> !Overlap(ss[i], ss[j])
  }

  lemma {:induction false} FrozenCreatesDisjoint(frozen: Store, st: Store, todo: seq<Slice>)
    requires Disjoint(st) && PairwiseDisjoint(todo)
    requires forall n :: n in st.slices ==>
               (forall id :: id in st.slices[n].partitions ==> Holds(frozen, id))
               || forall s :: s in todo ==> !Overlap(st.slices[n], s)
    ensures Disjoint(FrozenCreates(frozen, st, todo))
    decreases |todo|
  {
    if todo != [] {
      var s, rest := todo[0], todo[1..];
      assert forall t :: t in rest ==> t in todo;
      if !Blocked(frozen, s) && s.name !in st.slices {
        var st' := st.(slices := st.slices[s.name := s.(created := st.clock)]);
        forall n | n in st.slices ensures !Overlap(st.slices[n], s) {
          if forall id :: id in st.slices[n].partitions ==> Holds(frozen, id) {
          } else {
            assert s in todo;
          }
        }
        forall m, n | m in st'.slices && n in st'.slices && m != n ensures !Overlap(st'.slices[m], st'.slices[n]) {
          if m in st.slices && n in st.slices {
            assert !Overlap(st.slices[m], st.slices[n]);
          } else if m in st.slices {
            assert !Overlap(st.slices[m], s);
          } else {
            assert !Overlap(st.slices[n], s);
          }
        }
        forall t | t in rest ensures !Overlap(s.(created := st.clock), t) {
          var j :| 0 <= j < |rest| && rest[j] == t;
          assert !Overlap(todo[0], todo[j + 1]);
        }
        FrozenCreatesDisjoint(frozen, st', rest);
      } else if Blocked(frozen, s) {
        FrozenCreatesDisjoint(frozen, st, rest);
      }
    }
  }

  lemma {:induction false} SlotIdsHold(cubes: map<string, seq<seq<string>>>, slots: seq<Slot>, k: nat, id: string)
    requires k < |slots| && id in SlotCubes(cubes, slots[k])
    ensures id in SlotIds(cubes, slots)
    decreases |slots|
  {
    if k < |slots| - 1 { SlotIdsHold(cubes, slots[..|slots| - 1], k, id); }
  }

  lemma {:induction false} SlotsDisjoint(cubes: map<string, seq<seq<string>>>, slots: seq<Slot>, i: nat, j: nat,
                                         id: string)
    requires NoRepeat(SlotIds(cubes, slots)) && i < j < |slots| && id in SlotCubes(cubes, slots[i])
    ensures id !in SlotCubes(cubes, slots[j])
    decreases |slots|
  {
    var init, last := slots[..|slots| - 1], slots[|slots| - 1];
    var before, added := SlotIds(cubes, init), SlotCubes(cubes, last);
    assert slots[i] == init[i];
    NoRepeatConcat(before, added);
    if j < |init| {
      assert slots[j] == init[j];
      SlotsDisjoint(cubes, init, i, j, id);
    } else {
      SlotIdsHold(cubes, init, i, id);
      assert id in before;
    }
  }

  lemma NoRepeatJoin(a: seq<string>, b: seq<string>)
    requires NoRepeat(a) && Distinct(b) && forall id :: id in a ==> id !in b
    ensures NoRepeat(a + b)
  {
    NoRepeatIsDistinct(a);
    var all := a + b;
    forall i, j | 0 <= i < j < |all| ensures all[i] != all[j] {
      if i < |a| && j >= |a| { assert a[i] in a && b[j - |a|] in b; }
    }
    NoRepeatIsDistinct(all);
  }

  lemma {:induction false} SlotIdsFrom(cubes: map<string, seq<seq<string>>>, slots: seq<Slot>, id: string)
    requires id in SlotIds(cubes, slots)
    ensures exists k :: 0 <= k < |slots| && id in SlotCubes(cubes, slots[k])
  {
    var init, last := slots[..|slots| - 1], slots[|slots| - 1];
    if id !in SlotCubes(cubes, last) {
      SlotIdsFrom(cubes, init, id);
      var k :| 0 <= k < |init| && id in SlotCubes(cubes, init[k]);
      assert slots[k] == init[k];
    }
  }

  lemma {:induction false} SlotIdsDistinct(cubes: map<string, seq<seq<string>>>, slots: seq<Slot>)
    requires forall k :: 0 <= k < |slots| ==> Distinct(SlotCubes(cubes, slots[k]))
    requires forall i, j, id :: 0 <= i < j < |slots| && id in SlotCubes(cubes, slots[i]) ==>
               id !in SlotCubes(cubes, slots[j])
    ensures NoRepeat(SlotIds(cubes, slots))
  {
    if slots != [] {
      var init, last := slots[..|slots| - 1], slots[|slots| - 1];
      SlotIdsDistinct(cubes, init);
      forall id | id in SlotIds(cubes, init) ensures id !in SlotCubes(cubes, last) {
        SlotIdsFrom(cubes, init, id);
        var k :| 0 <= k < |init| && id in SlotCubes(cubes, init[k]);
        assert slots[k] == init[k];
      }
      NoRepeatJoin(SlotIds(cubes, init), SlotCubes(cubes, last));
    }
  }

  lemma {:induction false} SlotIsDistinct(cubes: map<string, seq<seq<string>>>, slots: seq<Slot>, k: nat)
    requires NoRepeat(SlotIds(cubes, slots)) && k < |slots|
    ensures Distinct(SlotCubes(cubes, slots[k]))
    decreases |slots|
  {
    var init, last := slots[..|slots| - 1], slots[|slots| - 1];
    var before, added := SlotIds(cubes, init), SlotCubes(cubes, last);
    NoRepeatConcat(before, added);
    if k < |init| {
      SlotIsDistinct(cubes, init, k);
    } else {
      RightIsDistinct(before, added);
    }
  }

  lemma RightIsDistinct(a: seq<string>, b: seq<string>)
    requires NoRepeat(a + b)
    ensures Distinct(b)
  {
    NoRepeatIsDistinct(a + b);
    forall i, j | 0 <= i < j < |b| ensures b[i] != b[j] {
      assert (a + b)[|a| + i] != (a + b)[|a| + j];
    }
  }

  /** A JobSet asks for slices exactly when its selection is there and well formed, or it has no annotations at
      all, and the slices made from it would hold no partition twice, neither in one nor in two of them. */
  lemma JobSetAsksIff(key: OwnerKey, js: JobSet)
    ensures JobSetWants(key, js).Some? <==>
            && (js.selection.NoAnnotations? || js.selection.Parsed?)
            && var slices := SlotSlices(key, js.uid, Cubes(js.selection).value, Slots(js.jobs));
               PairwiseDisjoint(slices) && forall s :: s in slices ==> Distinct(s.partitions)
  {
    if js.selection.NoAnnotations? || js.selection.Parsed? {
      var cubes, slots := Cubes(js.selection).value, Slots(js.jobs);
      var slices := SlotSlices(key, js.uid, cubes, slots);
      if JobSetWants(key, js).Some? {
        JobSetSlicesDisjoint(key, js);
        forall s | s in slices ensures Distinct(s.partitions) {
          var k :| 0 <= k < |slices| && slices[k] == s;
          SlotIsDistinct(cubes, slots, k);
        }
      } else if PairwiseDisjoint(slices) && forall s :: s in slices ==> Distinct(s.partitions) {
        ApartSlotsAreDistinct(key, js.uid, cubes, slots);
      }
    }
  }

  lemma ApartSlotsAreDistinct(key: OwnerKey, uid: string, cubes: map<string, seq<seq<string>>>, slots: seq<Slot>)
    requires |uid| >= 8
    requires var slices := SlotSlices(key, uid, cubes, slots);
             PairwiseDisjoint(slices) && forall s :: s in slices ==> Distinct(s.partitions)
    ensures NoRepeat(SlotIds(cubes, slots))
  {
    var slices := SlotSlices(key, uid, cubes, slots);
    forall k | 0 <= k < |slots| ensures Distinct(SlotCubes(cubes, slots[k])) { assert slices[k] in slices; }
    forall i, j, id | 0 <= i < j < |slots| && id in SlotCubes(cubes, slots[i])
      ensures id !in SlotCubes(cubes, slots[j])
    {
      assert !Overlap(slices[i], slices[j]);
    }
    SlotIdsDistinct(cubes, slots);
  }

  lemma NoRepeatConcat(a: seq<string>, b: seq<string>)
    requires NoRepeat(a + b)
    ensures NoRepeat(a) && forall id :: id in a ==> id !in b
  {
    NoRepeatPrefix(a, a + b);
    NoRepeatIsDistinct(a + b);
    forall x, y | 0 <= x < |a| && 0 <= y < |b| ensures a[x] != b[y] {
      assert (a + b)[x] != (a + b)[|a| + y];
    }
  }

  lemma {:induction false} CreatesDisjoint(desired: seq<Slice>, index: map<string, Slice>, legacy: map<string, string>,
                                           p: Policy, n: nat)
    requires n <= |desired| && PairwiseDisjoint(desired)
    ensures PairwiseDisjoint(Creates(desired, index, legacy, n))
  {
    if n > 0 {
      CreatesDisjoint(desired, index, legacy, p, n - 1);
      ListMembers(desired, index, legacy, p, n - 1);
      var before := Creates(desired, index, legacy, n - 1);
      forall i | 0 <= i < |before| ensures !Overlap(before[i], desired[n - 1]) {
        assert before[i] in before;
        var k :| 0 <= k < n - 1 && desired[k] == before[i];
      }
    }
  }

  lemma JobSetSlicesDisjoint(key: OwnerKey, js: JobSet)
    requires JobSetWants(key, js).Some?
    ensures PairwiseDisjoint(JobSetWants(key, js).value.slices)
  {
    var cubes, slots := Cubes(js.selection).value, Slots(js.jobs);
    forall i, j, id | 0 <= i < j < |slots| && id in SlotCubes(cubes, slots[i])
      ensures id !in SlotCubes(cubes, slots[j])
    {
      SlotsDisjoint(cubes, slots, i, j, id);
    }
  }

  /** A JobSet pass keeps slices disjoint even if its index is frozen when it starts, because
      `jobsetSlices` refuses any repeated ID. */
  lemma FrozenJobSetPassIsExclusive(key: OwnerKey, js: JobSet, frozen: Store, st: Store, listed: seq<Slice>, p: Policy)
    requires JobSetWants(key, js).Some? && Disjoint(st)
    requires forall id :: Holds(st, id) ==> Holds(frozen, id)
    ensures var w := JobSetWants(key, js).value;
            Disjoint(FrozenCreates(frozen, st, Diff(w.slices, listed, w.legacy, p).toCreate))
  {
    var w := JobSetWants(key, js).value;
    JobSetSlicesDisjoint(key, js);
    CreatesDisjoint(w.slices, Index(listed), w.legacy, p, |w.slices|);
    FrozenCreatesDisjoint(frozen, st, Diff(w.slices, listed, w.legacy, p).toCreate);
  }

  lemma {:induction false} NothingListed(desired: seq<Slice>, legacy: map<string, string>, p: Policy, n: nat)
    requires n <= |desired|
    ensures Creates(desired, Index([]), legacy, n) == desired[..n]
    ensures Deletes(desired, Index([]), legacy, p, n) == []
  {
    assert Index([]) == map[];
    if n > 0 {
      NothingListed(desired, legacy, p, n - 1);
      assert desired[..n] == desired[..n - 1] + [desired[n - 1]];
    }
  }

  predicate NamesFree(st: Store, todo: seq<Slice>) {
    DistinctNames(todo) && forall t :: t in todo ==> t.name !in st.slices
  }

  lemma {:induction false} AllCreated(frozen: Store, st: Store, todo: seq<Slice>)
    requires NamesFree(st, todo) && forall t :: t in todo ==> !Blocked(frozen, t)
    ensures var after := FrozenCreates(frozen, st, todo).slices;
            && (forall n :: n in st.slices ==> n in after && after[n] == st.slices[n])
            && (forall t :: t in todo ==> t.name in after && after[t.name].partitions == t.partitions)
    decreases |todo|
  {
    if todo != [] {
      var s, rest := todo[0], todo[1..];
      assert todo == [s] + rest;
      forall t | t in rest ensures t.name != s.name {
        var j :| 0 <= j < |rest| && rest[j] == t;
        assert todo[j + 1] == t && todo[0] == s;
      }
      AllCreated(frozen, st.(slices := st.slices[s.name := s.(created := st.clock)]), rest);
    }
  }

  /** When nothing blocks them, the frozen creates of a list keep slices disjoint exactly when the list is
      pairwise disjoint itself. */
  lemma FrozenCreatesDisjointIff(frozen: Store, st: Store, todo: seq<Slice>)
    requires Disjoint(st) && NamesFree(st, todo)
    requires forall id :: Holds(st, id) ==> Holds(frozen, id)
    requires forall t :: t in todo ==> !Blocked(frozen, t)
    ensures Disjoint(FrozenCreates(frozen, st, todo)) <==> PairwiseDisjoint(todo)
  {
    if PairwiseDisjoint(todo) { FrozenCreatesDisjoint(frozen, st, todo); }
    AllCreated(frozen, st, todo);
    var after := FrozenCreates(frozen, st, todo).slices;
    if !PairwiseDisjoint(todo) {
      var i, j :| 0 <= i < j < |todo| && Overlap(todo[i], todo[j]);
      assert todo[i] in todo && todo[j] in todo && todo[i].name != todo[j].name;
      var id :| id in todo[i].partitions && id in todo[j].partitions;
      assert Overlap(after[todo[i].name], after[todo[j].name]);
    }
  }

  /** No ID is selected for two of the groups that get a slice. */
  ghost predicate SelectionApart(lws: Lws)
    requires lws.selection.LwsParsed?
  {
    forall g, h, id :: -1 <= g < h && id in GroupIds(lws, g) ==> id !in GroupIds(lws, h)
  }

  lemma LwsDisjointIff(key: OwnerKey, lws: Lws)
    requires lws.selection.LwsParsed?
    ensures PairwiseDisjoint(LwsWants(key, lws).value.slices) <==> SelectionApart(lws)
  {
    LwsPartitions(key, lws);
    var slices := LwsWants(key, lws).value.slices;
    if SelectionApart(lws) {
      forall i, j | 0 <= i < j < |slices| ensures !Overlap(slices[i], slices[j]) {
        forall id | id in slices[i].partitions ensures id !in slices[j].partitions {
          assert id in GroupIds(lws, GroupAt(lws, i)) && -1 <= GroupAt(lws, i) < GroupAt(lws, j);
        }
      }
    }
    if PairwiseDisjoint(slices) {
      forall g, h, id | -1 <= g < h && id in GroupIds(lws, g) ensures id !in GroupIds(lws, h) {
        if GroupIds(lws, h) != [] {
          var i :| 0 <= i < |slices| && GroupAt(lws, i) == g;
          var j :| 0 <= j < |slices| && GroupAt(lws, j) == h;
          assert !Overlap(slices[i], slices[j]);
        }
      }
    }
  }

  /** `lwsSlices` does not look for repeated IDs. With a frozen index a LeaderWorkerSet pass keeps slices
      disjoint if no ID is selected for two of its groups. */
  lemma FrozenLwsPassIsExclusive(key: OwnerKey, lws: Lws, frozen: Store, st: Store, listed: seq<Slice>, p: Policy)
    requires lws.selection.LwsParsed? && SelectionApart(lws) && Disjoint(st)
    requires forall id :: Holds(st, id) ==> Holds(frozen, id)
    ensures var w := LwsWants(key, lws).value;
            Disjoint(FrozenCreates(frozen, st, Diff(w.slices, listed, w.legacy, p).toCreate))
  {
    var w := LwsWants(key, lws).value;
    LwsDisjointIff(key, lws);
    CreatesDisjoint(w.slices, Index(listed), w.legacy, p, |w.slices|);
    FrozenCreatesDisjoint(frozen, st, Diff(w.slices, listed, w.legacy, p).toCreate);
  }

  /** And only then, when it creates all its slices: nothing of it exists yet and nothing blocks it. */
  lemma FrozenLwsPassIsExclusiveIff(key: OwnerKey, lws: Lws, frozen: Store, st: Store, p: Policy)
    requires lws.selection.LwsParsed? && Disjoint(st)
    requires forall id :: Holds(st, id) ==> Holds(frozen, id)
    requires forall s :: s in LwsWants(key, lws).value.slices ==> s.name !in st.slices && !Blocked(frozen, s)
    ensures var w := LwsWants(key, lws).value;
            Disjoint(FrozenCreates(frozen, st, Diff(w.slices, [], w.legacy, p).toCreate)) <==> SelectionApart(lws)
  {
    var w := LwsWants(key, lws).value;
    LwsNamesDistinct(key, lws, if LwsReplicas(lws) > 0 then LwsReplicas(lws) else 0);
    NothingListed(w.slices, w.legacy, p, |w.slices|);
    assert w.slices[..|w.slices|] == w.slices;
    FrozenCreatesDisjointIff(frozen, st, w.slices);
    LwsDisjointIff(key, lws);
  }

  /** So one LeaderWorkerSet can claim a cube twice. */
  lemma FrozenLwsPassMayOverlap(key: OwnerKey, p: Policy)
    ensures var lws := Lws("00000000", Some(1), Some(Template(map[ACCELERATOR := "tpu7x"], map[])),
                           Template(map[ACCELERATOR := "tpu7x"], map[]), LwsParsed(["cube"], [["cube"]]));
            var empty := Store(map[], map[], 0);
            var w := LwsWants(key, lws).value;
            !Disjoint(FrozenCreates(empty, empty, Diff(w.slices, [], w.legacy, p).toCreate))
  {
    var lws := Lws("00000000", Some(1), Some(Template(map[ACCELERATOR := "tpu7x"], map[])),
                   Template(map[ACCELERATOR := "tpu7x"], map[]), LwsParsed(["cube"], [["cube"]]));
    var empty := Store(map[], map[], 0);
    assert "cube" in GroupIds(lws, -1) && "cube" in GroupIds(lws, 0);
    FrozenLwsPassIsExclusiveIff(key, lws, empty, empty, p);
  }
}
