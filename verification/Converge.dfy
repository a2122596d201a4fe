/** Failure-free passes of one owner reach its desired slices in at most three rounds. */
module Converge {
  import opened Base
  import opened Slices
  import opened Desired
  import opened Cluster
  import opened World
  import opened Exclusive
  import opened PassFacts

  // ---- What a failure-free pass does to the slices ----

  function MarkAll(m: map<string, Slice>, todo: seq<Slice>): map<string, Slice> {
    if todo == [] then m
    else
      var n := todo[0].name;
      MarkAll(if n in m && !todo[0].terminating then m[n := m[n].(terminating := true)] else m, todo[1..])
  }

  function CreateAll(st: Store, todo: seq<Slice>): Store
    decreases |todo|
  {
    if todo == [] then st
    else if Blocked(st, todo[0]) then CreateAll(st, todo[1..])
    else CreateAll(st.(slices := st.slices[todo[0].name := todo[0].(created := st.clock)]), todo[1..])
  }

  function AnyBlocked(st: Store, todo: seq<Slice>): bool
    decreases |todo|
  {
    if todo == [] then false
    else if Blocked(st, todo[0]) then true
    else AnyBlocked(st.(slices := st.slices[todo[0].name := todo[0].(created := st.clock)]), todo[1..])
  }

  lemma {:induction false} QuietDeletes(key: OwnerKey, p: Policy, st: Store, ctx: Context, todo: seq<Slice>)
    requires forall t :: t in todo ==> t.name in st.slices
    ensures Drain(key, p, st, NextDelete(key, p, ctx, todo), []) ==
            Drain(key, p, st.(slices := MarkAll(st.slices, todo)),
                  NextCreate(key, p, ctx, ctx.plan.toCreate, false), [])
    decreases |todo|
  {
    if todo != [] {
      var t, rest := todo[0], todo[1..];
      var m := if t.terminating then st.slices else st.slices[t.name := st.slices[t.name].(terminating := true)];
      QuietDeletes(key, p, st.(slices := m), ctx, rest);
    }
  }

  lemma {:induction false} QuietChecks(key: OwnerKey, p: Policy, st: Store, ctx: Context, todo: seq<Slice>, k: nat,
                                       skipped: bool)
    requires todo != [] && k <= |todo[0].partitions|
    requires forall i :: 0 <= i < k ==> !Holds(st, todo[0].partitions[i])
    ensures Drain(key, p, st, Checking(ctx, todo, k, skipped), []) ==
            if Blocked(st, todo[0]) then Drain(key, p, st, NextCreate(key, p, ctx, todo[1..], true), [])
            else Drain(key, p, st, Checking(ctx, todo, |todo[0].partitions|, skipped), [])
    decreases |todo[0].partitions| - k
  {
    if k < |todo[0].partitions| {
      if Holds(st, todo[0].partitions[k]) {
        assert Blocked(st, todo[0]);
      } else {
        QuietChecks(key, p, st, ctx, todo, k + 1, skipped);
      }
    }
  }

  predicate FreeNames(st: Store, todo: seq<Slice>) {
    DistinctNames(todo) && forall t :: t in todo ==> t.name !in st.slices
  }

  lemma {:induction false} QuietCreates(key: OwnerKey, p: Policy, st: Store, ctx: Context, todo: seq<Slice>,
                                        skipped: bool)
    requires FreeNames(st, todo)
    ensures Drain(key, p, st, NextCreate(key, p, ctx, todo, skipped), []) ==
            Drain(key, p, CreateAll(st, todo), AfterApply(key, p, ctx, skipped || AnyBlocked(st, todo)), [])
    decreases |todo|
  {
    if todo != [] {
      QuietChecks(key, p, st, ctx, todo, 0, skipped);
      if Blocked(st, todo[0]) {
        QuietCreates(key, p, st, ctx, todo[1..], true);
      } else {
        QuietCreates(key, p, st.(slices := st.slices[todo[0].name := todo[0].(created := st.clock)]), ctx, todo[1..],
                     skipped);
      }
    }
  }

  /** A pass in which every request is answered, its list being `listed`. */
  function Quiet(key: OwnerKey, p: Policy, st: Store, listed: seq<Slice>): Final {
    Drain(key, p, st, Fetching, [Ack, Items(listed)])
  }

  /** The owner asks for `w` and will keep doing so: it is neither going away nor misconfigured. */
  predicate Asks(key: OwnerKey, st: Store, w: Wanted) {
    key in st.owners
    && !MustCleanUp(key, st.owners[key])
    && (key.kind.LwsKind? ==> st.owners[key].mode == "async")
    && Wants(key, st.owners[key].spec) == Some(w)
  }

  lemma QuietPass(key: OwnerKey, p: Policy, st: Store, listed: seq<Slice>, w: Wanted)
    requires WellNamed(st) && Asks(key, st, w) && IsListing(st, key, listed)
    requires var plan := Diff(w.slices, listed, w.legacy, p);
             FreeNames(st, plan.toCreate)
    ensures var plan := Diff(w.slices, listed, w.legacy, p);
            var f := Quiet(key, p, st, listed);
            && f.result == Succeeded(MinDuration(plan.requeueAfter,
                 if AnyBlocked(st.(slices := MarkAll(st.slices, plan.toDelete)), plan.toCreate) then SECOND else 0))
            && f.store.slices == CreateAll(st.(slices := MarkAll(st.slices, plan.toDelete)), plan.toCreate).slices
            && Asks(key, f.store, w)
  {
    var script := [Ack, Items(listed)];
    OpeningIsDrained(key, p, st, script);
    var s := Opening(key, p, st, script).value;
    var plan := s.ctx.plan;
    assert s.script == [] && s.store.slices == st.slices && s.store.clock == st.clock && Asks(key, s.store, w);
    forall t | t in plan.toDelete ensures t.name in st.slices {
      DeletesExact(w.slices, listed, w.legacy, p, t);
    }
    QuietApply(key, p, s.store, s.ctx);
    var marked := st.(slices := MarkAll(st.slices, plan.toDelete));
    SameSlicesSameCreates(s.store.(slices := MarkAll(st.slices, plan.toDelete)), marked, plan.toCreate);
  }

  lemma QuietApply(key: OwnerKey, p: Policy, st: Store, ctx: Context)
    requires Asks(key, st, ctx.wanted) && FreeNames(st, ctx.plan.toCreate)
    requires forall t :: t in ctx.plan.toDelete ==> t.name in st.slices
    ensures var marked := st.(slices := MarkAll(st.slices, ctx.plan.toDelete));
            var f := Drain(key, p, st, NextDelete(key, p, ctx, ctx.plan.toDelete), []);
            && f.result == Succeeded(MinDuration(ctx.plan.requeueAfter,
                                                 if AnyBlocked(marked, ctx.plan.toCreate) then SECOND else 0))
            && f.store.slices == CreateAll(marked, ctx.plan.toCreate).slices
            && Asks(key, f.store, ctx.wanted)
  {
    var marked := st.(slices := MarkAll(st.slices, ctx.plan.toDelete));
    QuietDeletes(key, p, st, ctx, ctx.plan.toDelete);
    MarkAllKeys(st.slices, ctx.plan.toDelete);
    QuietCreates(key, p, marked, ctx, ctx.plan.toCreate, false);
    SameSlicesSameCreates(marked, marked, ctx.plan.toCreate);
    QuietEnd(key, p, CreateAll(marked, ctx.plan.toCreate), ctx, AnyBlocked(marked, ctx.plan.toCreate));
  }

  lemma {:induction false} MarkAllKeys(m: map<string, Slice>, todo: seq<Slice>)
    ensures MarkAll(m, todo).Keys == m.Keys
    ensures forall n :: n in m ==> MarkAll(m, todo)[n] == m[n].(terminating := MarkAll(m, todo)[n].terminating)
    ensures forall n :: n in m && !m[n].terminating ==>
              (MarkAll(m, todo)[n].terminating <==> exists t :: t in todo && t.name == n && !t.terminating)
    ensures forall n :: n in m && m[n].terminating ==> MarkAll(m, todo)[n].terminating
    decreases |todo|
  {
    if todo != [] {
      var n := todo[0].name;
      var m' := if n in m && !todo[0].terminating then m[n := m[n].(terminating := true)] else m;
      MarkAllKeys(m', todo[1..]);
      assert todo == [todo[0]] + todo[1..];
    }
  }

  lemma {:induction false} SameSlicesSameCreates(a: Store, b: Store, todo: seq<Slice>)
    requires a.slices == b.slices && a.clock == b.clock
    ensures CreateAll(a, todo).slices == CreateAll(b, todo).slices && AnyBlocked(a, todo) == AnyBlocked(b, todo)
    ensures CreateAll(a, todo).owners == a.owners
    decreases |todo|
  {
    if todo != [] {
      assert Blocked(a, todo[0]) == Blocked(b, todo[0]);
      if Blocked(a, todo[0]) {
        SameSlicesSameCreates(a, b, todo[1..]);
      } else {
        var next := a.slices[todo[0].name := todo[0].(created := a.clock)];
        SameSlicesSameCreates(a.(slices := next), b.(slices := next), todo[1..]);
      }
    }
  }

  lemma QuietEnd(key: OwnerKey, p: Policy, st: Store, ctx: Context, skipped: bool)
    requires Asks(key, st, ctx.wanted)
    ensures var f := Drain(key, p, st, AfterApply(key, p, ctx, skipped), []);
            && f.result == Succeeded(MinDuration(ctx.plan.requeueAfter, if skipped then SECOND else 0))
            && f.store.slices == st.slices && Asks(key, f.store, ctx.wanted)
  {
    var pass := AfterApply(key, p, ctx, skipped);
    if pass.Syncing? {
      var (st1, pass1) := Step(key, p, st, pass, Ack);
      SuspendKeepsAsking(key, st, pass.target, ctx.wanted);
      assert Drain(key, p, st, pass, []) == Drain(key, p, st1, pass1, []);
    }
  }

  lemma SuspendKeepsAsking(key: OwnerKey, st: Store, value: bool, w: Wanted)
    requires Asks(key, st, w)
    ensures var (st', status) := SuspendOp(st, key, value, Ack);
            Asks(key, st', w) && status.Ok? && st'.slices == st.slices
  {
    assert SuspendOp(st, key, value, Ack).0.owners[key].spec == st.owners[key].spec;
  }

  // ---- Rounds ----

  /** Terminating slices finish before the next pass. */
  function Settle(st: Store): Store {
    st.(slices := map n | n in st.slices && !st.slices[n].terminating :: st.slices[n])
  }

  function Round(key: OwnerKey, p: Policy, st: Store, listed: seq<Slice>): Store {
    Settle(Quiet(key, p, st, listed).store)
  }

  /** Desired names are distinct, and legacy names are distinct from each other and from them. */
  ghost predicate NamesApart(w: Wanted) {
    && DistinctNames(w.slices)
    && (forall a, b :: a in w.legacy && b in w.legacy && a != b ==> w.legacy[a] != w.legacy[b])
    && (forall a, d :: a in w.legacy && d in w.slices ==> w.legacy[a] != d.name)
  }

  /** A name under which the lookup of some desired slice can find something, now or after the slice
      of the new name has been replaced. */
  ghost predicate Relevant(w: Wanted, m: map<string, Slice>, n: string) {
    exists d :: d in w.slices
                && (n == d.name
                    || (d.name in w.legacy && n == w.legacy[d.name]
                        && !(d.name in m && m[d.name].partitions == d.partitions)))
  }

  ghost predicate Ours(w: Wanted, n: string) {
    exists d :: d in w.slices && (n == d.name || (d.name in w.legacy && n == w.legacy[d.name]))
  }

  /** Nothing is terminating, nothing but the owner's slices stands under its names, no recreate condition
      matches, and no slice outside holds a desired partition. */
  ghost predicate Calm(key: OwnerKey, st: Store, w: Wanted, recreate: seq<RecreateCondition>) {
    && WellNamed(st) && Asks(key, st, w)
    && (forall n :: n in st.slices ==> !st.slices[n].terminating)
    && (forall n :: n in st.slices && Ours(w, n) ==> st.slices[n].owner == Some(key))
    && (forall n :: n in st.slices && st.slices[n].owner == Some(key) ==> !RecreationMatches(st.slices[n], recreate))
    && (forall n, d :: n in st.slices && d in w.slices && Overlap(st.slices[n], d) ==> Relevant(w, st.slices, n))
  }

  ghost predicate Good(key: OwnerKey, st: Store, w: Wanted, recreate: seq<RecreateCondition>) {
    NamesApart(w) && PairwiseDisjoint(w.slices) && Calm(key, st, w, recreate)
  }

  /** How far a desired slice is from existing with its partitions: 0 it does, 1 nothing stands for
      it, 2 its legacy slice must go first, 3 the slice of its own name must go first. */
  function Stage(d: Slice, m: map<string, Slice>, legacy: map<string, string>): nat {
    if d.name in m then (if m[d.name].partitions == d.partitions then 0 else 3)
    else if d.name in legacy && legacy[d.name] in m then (if m[legacy[d.name]].partitions == d.partitions then 0 else 2)
    else 1
  }

  ghost predicate Doomed(w: Wanted, m: map<string, Slice>, n: string) {
    n in m && exists d :: d in w.slices && Lookup(d.name, m, w.legacy) == Some(m[n]) && m[n].partitions != d.partitions
  }

  lemma ListedLookup(key: OwnerKey, st: Store, w: Wanted, recreate: seq<RecreateCondition>, listed: seq<Slice>,
                     d: Slice)
    requires Good(key, st, w, recreate) && IsListing(st, key, listed) && d in w.slices
    ensures Lookup(d.name, Index(listed), w.legacy) == Lookup(d.name, st.slices, w.legacy)
  {
    IndexIsExisting(listed);
    var index := Index(listed);
    forall n | n == d.name || (d.name in w.legacy && n == w.legacy[d.name])
      ensures n in index <==> n in st.slices
      ensures n in index ==> index[n] == st.slices[n]
    {
      assert Ours(w, n);
      if n in st.slices { assert st.slices[n] in listed; }
    }
  }

  /** In a good store the plan deletes exactly the doomed slices and creates exactly what is at
      stage 1. */
  lemma GoodPlan(key: OwnerKey, st: Store, w: Wanted, p: Policy, listed: seq<Slice>)
    requires Good(key, st, w, p.recreate) && IsListing(st, key, listed)
    ensures var plan := Diff(w.slices, listed, w.legacy, p);
            && (forall n :: n in st.slices ==> (Doomed(w, st.slices, n) <==>
                                                  exists t :: t in plan.toDelete && t.name == n && !t.terminating))
            && (forall d :: d in plan.toCreate <==> d in w.slices && Stage(d, st.slices, w.legacy) == 1)
            && plan.requeueAfter == 0
            && FreeNames(st, plan.toCreate) && PairwiseDisjoint(plan.toCreate)
  {
    var index := Index(listed);
    forall n | n in st.slices { DoomedIsDeleted(key, st, w, p, listed, n); }
    forall d { CreateIsStage1(key, st, w, p, listed, d); }
    forall d | d in w.slices ensures !Judge(d, index, w.legacy, p).Await? { JudgeGood(key, st, w, p, listed, d); }
    NoDelays(w.slices, index, w.legacy, p, |w.slices|);
    CreatesDisjoint(w.slices, index, w.legacy, p, |w.slices|);
    CreatesDistinct(w.slices, index, w.legacy, p, |w.slices|);
  }

  lemma {:induction false} NoDelays(desired: seq<Slice>, index: map<string, Slice>, legacy: map<string, string>,
                                    p: Policy, n: nat)
    requires n <= |desired| && forall d :: d in desired ==> !Judge(d, index, legacy, p).Await?
    ensures Delays(desired, index, legacy, p, n) == []
  {
    if n > 0 { NoDelays(desired, index, legacy, p, n - 1); }
  }

  lemma CreateIsStage1(key: OwnerKey, st: Store, w: Wanted, p: Policy, listed: seq<Slice>, d: Slice)
    requires Good(key, st, w, p.recreate) && IsListing(st, key, listed)
    ensures d in Diff(w.slices, listed, w.legacy, p).toCreate <==> d in w.slices && Stage(d, st.slices, w.legacy) == 1
  {
    InCreates(w.slices, Index(listed), w.legacy, p, d);
    if d in w.slices { ListedLookup(key, st, w, p.recreate, listed, d); }
  }

  lemma InCreates(desired: seq<Slice>, index: map<string, Slice>, legacy: map<string, string>, p: Policy, d: Slice)
    ensures d in Creates(desired, index, legacy, |desired|) <==> d in desired && Lookup(d.name, index, legacy).None?
  {
    ListMembers(desired, index, legacy, p, |desired|);
    if d in desired {
      var k :| 0 <= k < |desired| && desired[k] == d;
    }
  }

  lemma InDeletes(desired: seq<Slice>, index: map<string, Slice>, legacy: map<string, string>, p: Policy, s: Slice)
    ensures s in Deletes(desired, index, legacy, p, |desired|) <==>
            exists d :: d in desired && Judge(d, index, legacy, p) == Replace(s)
  {
    ListMembers(desired, index, legacy, p, |desired|);
    if d :| d in desired && Judge(d, index, legacy, p) == Replace(s) {
      var k :| 0 <= k < |desired| && desired[k] == d;
    }
  }

  lemma JudgeGood(key: OwnerKey, st: Store, w: Wanted, p: Policy, listed: seq<Slice>, d: Slice)
    requires Good(key, st, w, p.recreate) && IsListing(st, key, listed) && d in w.slices
    ensures var found := Lookup(d.name, st.slices, w.legacy);
            Judge(d, Index(listed), w.legacy, p) ==
            if found.None? then Missing
            else if found.value.partitions != d.partitions then Replace(found.value) else Keep(found.value)
  {
    ListedLookup(key, st, w, p.recreate, listed, d);
    var found := Lookup(d.name, st.slices, w.legacy);
    if found.Some? { assert Ours(w, found.value.name); }
  }

  lemma DoomedIsDeleted(key: OwnerKey, st: Store, w: Wanted, p: Policy, listed: seq<Slice>, n: string)
    requires Good(key, st, w, p.recreate) && IsListing(st, key, listed) && n in st.slices
    ensures Doomed(w, st.slices, n) <==>
            exists t :: t in Diff(w.slices, listed, w.legacy, p).toDelete && t.name == n && !t.terminating
  {
    var toDelete := Diff(w.slices, listed, w.legacy, p).toDelete;
    forall d | d in w.slices { JudgeGood(key, st, w, p, listed, d); }
    if Doomed(w, st.slices, n) {
      InDeletes(w.slices, Index(listed), w.legacy, p, st.slices[n]);
    }
    if t :| t in toDelete && t.name == n && !t.terminating {
      InDeletes(w.slices, Index(listed), w.legacy, p, t);
    }
  }

  lemma {:induction false} CreatesDistinct(desired: seq<Slice>, index: map<string, Slice>, legacy: map<string, string>,
                                           p: Policy, n: nat)
    requires n <= |desired| && DistinctNames(desired)
    ensures DistinctNames(Creates(desired, index, legacy, n))
  {
    if n > 0 {
      CreatesDistinct(desired, index, legacy, p, n - 1);
      ListMembers(desired, index, legacy, p, n - 1);
      var before := Creates(desired, index, legacy, n - 1);
      forall i | 0 <= i < |before| ensures before[i].name != desired[n - 1].name {
        assert before[i] in before;
      }
    }
  }

  lemma {:induction false} CreateAllMap(st: Store, todo: seq<Slice>)
    requires FreeNames(st, todo) && PairwiseDisjoint(todo)
    ensures var m := CreateAll(st, todo).slices;
            && (forall n :: n in st.slices ==> n in m && m[n] == st.slices[n])
            && (forall t :: t in todo ==> (t.name in m <==> !Blocked(st, t)))
            && (forall t :: t in todo && t.name in m ==> m[t.name] == t.(created := st.clock))
            && (forall n :: n in m && n !in st.slices ==> exists t :: t in todo && t.name == n)
    decreases |todo|
  {
    if todo != [] {
      var s, rest := todo[0], todo[1..];
      assert todo == [s] + rest;
      if Blocked(st, s) {
        CreateAllMap(st, rest);
        HeadNameIsNew(todo);
      } else {
        var st' := st.(slices := st.slices[s.name := s.(created := st.clock)]);
        HeadNameIsNew(todo);
        forall t | t in rest ensures Blocked(st', t) == Blocked(st, t) { OneMoreBlocks(st, s, t); }
        CreateAllMap(st', rest);
      }
    }
  }

  lemma HeadNameIsNew(todo: seq<Slice>)
    requires todo != [] && DistinctNames(todo) && PairwiseDisjoint(todo)
    ensures forall t :: t in todo[1..] ==> t.name != todo[0].name && !Overlap(todo[0], t)
    ensures DistinctNames(todo[1..]) && PairwiseDisjoint(todo[1..])
  {
    forall t | t in todo[1..] ensures t.name != todo[0].name && !Overlap(todo[0], t) {
      var j :| 0 <= j < |todo[1..]| && todo[1..][j] == t;
      assert todo[j + 1] == t;
    }
  }

  lemma OneMoreBlocks(st: Store, s: Slice, t: Slice)
    requires s.name !in st.slices && !Overlap(s, t)
    ensures Blocked(st.(slices := st.slices[s.name := s.(created := st.clock)]), t) == Blocked(st, t)
  {
    var st' := st.(slices := st.slices[s.name := s.(created := st.clock)]);
    forall id | id in t.partitions ensures Holds(st', id) == Holds(st, id) {
      if n :| n in st.slices && id in st.slices[n].partitions { assert id in st'.slices[n].partitions; }
    }
  }

  /** What one round does to the slices of a good store. */
  lemma RoundMap(key: OwnerKey, p: Policy, st: Store, listed: seq<Slice>, w: Wanted)
    requires Good(key, st, w, p.recreate) && IsListing(st, key, listed)
    ensures var m, m' := st.slices, Round(key, p, st, listed).slices;
            && (forall n :: n in m ==> (n in m' <==> !Doomed(w, m, n)))
            && (forall n :: n in m && n in m' ==> m'[n] == m[n])
            && (forall d :: d in w.slices && Stage(d, m, w.legacy) == 1 ==> (d.name in m' <==> !Blocked(st, d)))
            && (forall d :: d in w.slices && d.name in m' && d.name !in m ==> m'[d.name] == d.(created := st.clock))
            && (forall n :: n in m' && n !in m ==>
                  exists d :: d in w.slices && d.name == n && Stage(d, m, w.legacy) == 1)
    ensures Asks(key, Round(key, p, st, listed), w)
  {
    var plan := Diff(w.slices, listed, w.legacy, p);
    GoodPlan(key, st, w, p, listed);
    QuietPass(key, p, st, listed, w);
    MarkAllKeys(st.slices, plan.toDelete);
    var marked := st.(slices := MarkAll(st.slices, plan.toDelete));
    CreateAllMap(marked, plan.toCreate);
    forall d ensures Blocked(marked, d) == Blocked(st, d) { MarkedBlocks(st, marked, d); }
    forall d | d in plan.toCreate && d.name in CreateAll(marked, plan.toCreate).slices
      ensures !CreateAll(marked, plan.toCreate).slices[d.name].terminating
    {
      WantedAreFresh(key, st.owners[key].spec);
    }
    assert WantsFresh(w) by { WantedAreFresh(key, st.owners[key].spec); }
  }

  ghost predicate WantsFresh(w: Wanted) {
    forall d :: d in w.slices ==> !d.terminating && d.conditions == []
  }

  lemma MarkedBlocks(st: Store, marked: Store, d: Slice)
    requires marked.slices.Keys == st.slices.Keys
    requires forall n :: n in st.slices ==> marked.slices[n].partitions == st.slices[n].partitions
    ensures Blocked(marked, d) == Blocked(st, d)
  {
    forall id ensures Holds(marked, id) == Holds(st, id) {
      if n :| n in st.slices && id in st.slices[n].partitions { assert id in marked.slices[n].partitions; }
      if n :| n in marked.slices && id in marked.slices[n].partitions { assert id in st.slices[n].partitions; }
    }
  }

  // ---- Progress ----

  /** Only one desired slice can look a given name up. */
  lemma DoomedWhen(w: Wanted, m: map<string, Slice>, d: Slice)
    requires NamesApart(w) && d in w.slices && forall n :: n in m ==> m[n].name == n
    ensures d.name in m ==> (Doomed(w, m, d.name) <==> Stage(d, m, w.legacy) == 3)
    ensures d.name in w.legacy && w.legacy[d.name] in m ==>
              (Doomed(w, m, w.legacy[d.name]) <==> Stage(d, m, w.legacy) == 2)
  {
    OneSliceOfAName(w, d);
  }

  lemma OneSliceOfAName(w: Wanted, d: Slice)
    requires DistinctNames(w.slices) && d in w.slices
    ensures forall d2 :: d2 in w.slices && d2.name == d.name ==> d2 == d
  {
    forall d2 | d2 in w.slices && d2.name == d.name ensures d2 == d {
      var i :| 0 <= i < |w.slices| && w.slices[i] == d;
      var j :| 0 <= j < |w.slices| && w.slices[j] == d2;
    }
  }

  lemma StageAfter(key: OwnerKey, p: Policy, st: Store, listed: seq<Slice>, w: Wanted, d: Slice)
    requires Good(key, st, w, p.recreate) && IsListing(st, key, listed) && d in w.slices
    ensures var now, next := Stage(d, st.slices, w.legacy), Stage(d, Round(key, p, st, listed).slices, w.legacy);
            && (now == 0 ==> next == 0)
            && (now == 1 ==> next == if Blocked(st, d) then 1 else 0)
            && (now == 2 ==> next == 1)
            && (now == 3 ==> next <= 2)
  {
    var m, m' := st.slices, Round(key, p, st, listed).slices;
    RoundMap(key, p, st, listed, w);
    DoomedWhen(w, m, d);
    OneSliceOfAName(w, d);
    if d.name in w.legacy && w.legacy[d.name] !in m {
      assert w.legacy[d.name] !in m';
    }
  }

  /** A slice that could stand for `e` and holds one of its IDs or none of `d`'s: with every stage at
      most 1, a relevant slice already has its desired partitions. */
  lemma CloseMeansDisjoint(w: Wanted, m: map<string, Slice>, d: Slice, e: Slice, n: string)
    requires DistinctNames(w.slices) && PairwiseDisjoint(w.slices)
    requires d in w.slices && e in w.slices && n in m && Stage(d, m, w.legacy) == 1 && Stage(e, m, w.legacy) <= 1
    requires n == e.name || (e.name in w.legacy && n == w.legacy[e.name]
                             && !(e.name in m && m[e.name].partitions == e.partitions))
    ensures !Overlap(m[n], d)
  {
    assert Stage(e, m, w.legacy) == 0 && m[n].partitions == e.partitions;
    var i :| 0 <= i < |w.slices| && w.slices[i] == d;
    var j :| 0 <= j < |w.slices| && w.slices[j] == e;
    if i < j { assert !Overlap(d, e); } else { assert !Overlap(e, d); }
  }

  lemma UnblockedWhenClose(key: OwnerKey, st: Store, w: Wanted, recreate: seq<RecreateCondition>, d: Slice)
    requires Good(key, st, w, recreate) && d in w.slices && Stage(d, st.slices, w.legacy) == 1
    requires Within(w, st, 1)
    ensures !Blocked(st, d)
  {
    forall n | n in st.slices ensures !Overlap(st.slices[n], d) {
      if Relevant(w, st.slices, n) {
        var e :| e in w.slices && (n == e.name || (e.name in w.legacy && n == w.legacy[e.name]
                                                  && !(e.name in st.slices
                                                       && st.slices[e.name].partitions == e.partitions)));
        CloseMeansDisjoint(w, st.slices, d, e, n);
      }
    }
    BlockedMeansOverlap(st, d);
  }

  lemma BlockedMeansOverlap(st: Store, d: Slice)
    ensures Blocked(st, d) ==> exists n :: n in st.slices && Overlap(st.slices[n], d)
  {
    if Blocked(st, d) {
      var id :| id in d.partitions && Holds(st, id);
      var n :| n in st.slices && id in st.slices[n].partitions;
      assert Overlap(st.slices[n], d);
    }
  }

  lemma StaysRelevant(key: OwnerKey, p: Policy, st: Store, listed: seq<Slice>, w: Wanted, n: string)
    requires Good(key, st, w, p.recreate) && IsListing(st, key, listed)
    requires n in st.slices && n in Round(key, p, st, listed).slices && Relevant(w, st.slices, n)
    ensures Relevant(w, Round(key, p, st, listed).slices, n)
  {
    var m, m' := st.slices, Round(key, p, st, listed).slices;
    RoundMap(key, p, st, listed, w);
    var d :| d in w.slices && (n == d.name || (d.name in w.legacy && n == w.legacy[d.name]
                                              && !(d.name in m && m[d.name].partitions == d.partitions)));
    OneSliceOfAName(w, d);
  }

  lemma StaysGood(key: OwnerKey, p: Policy, st: Store, listed: seq<Slice>, w: Wanted)
    requires Good(key, st, w, p.recreate) && IsListing(st, key, listed)
    ensures Good(key, Round(key, p, st, listed), w, p.recreate)
  {
    var st' := Round(key, p, st, listed);
    var m, m' := st.slices, st'.slices;
    RoundMap(key, p, st, listed, w);
    WantedAreFresh(key, st.owners[key].spec);
    forall n | n in m'
      ensures m'[n].name == n && !m'[n].terminating
      ensures Ours(w, n) ==> m'[n].owner == Some(key)
      ensures m'[n].owner == Some(key) ==> !RecreationMatches(m'[n], p.recreate)
    {
      if n !in m { var d :| d in w.slices && d.name == n && Stage(d, m, w.legacy) == 1; }
    }
    forall n, d | n in m' && d in w.slices && Overlap(m'[n], d) ensures Relevant(w, m', n) {
      if n in m {
        StaysRelevant(key, p, st, listed, w, n);
      } else {
        var e :| e in w.slices && e.name == n && Stage(e, m, w.legacy) == 1;
      }
    }
  }

  ghost predicate Within(w: Wanted, st: Store, k: nat) {
    forall d :: d in w.slices ==> Stage(d, st.slices, w.legacy) <= k
  }

  /** The measure: while some slice is off, a round brings the farthest stage down by at least one. */
  lemma RoundShrinks(key: OwnerKey, p: Policy, st: Store, listed: seq<Slice>, w: Wanted, k: nat)
    requires Good(key, st, w, p.recreate) && IsListing(st, key, listed) && Within(w, st, k + 1)
    ensures Good(key, Round(key, p, st, listed), w, p.recreate) && Within(w, Round(key, p, st, listed), k)
  {
    StaysGood(key, p, st, listed, w);
    forall d | d in w.slices ensures Stage(d, Round(key, p, st, listed).slices, w.legacy) <= k {
      StageAfter(key, p, st, listed, w, d);
      if k == 0 && Stage(d, st.slices, w.legacy) == 1 { UnblockedWhenClose(key, st, w, p.recreate, d); }
    }
  }

  /** Every desired slice exists with its desired partitions, under its new or its legacy name. */
  ghost predicate Reached(w: Wanted, st: Store) {
    forall d :: d in w.slices ==>
      var found := Lookup(d.name, st.slices, w.legacy);
      found.Some? && found.value.partitions == d.partitions
  }

  /** At most three failure-free passes reach every desired slice, whatever the order of the lists and
      however the clock moves, when desired and legacy names are apart, desired partitions disjoint and
      held by nobody outside, nothing is terminating and no recreate condition matches. */
  lemma ThreePassesConverge(key: OwnerKey, w: Wanted, st0: Store, p0: Policy, p1: Policy, p2: Policy,
                            l0: seq<Slice>, l1: seq<Slice>, l2: seq<Slice>)
    requires Good(key, st0, w, p0.recreate) && p0.recreate == p1.recreate == p2.recreate
    requires IsListing(st0, key, l0)
    requires var st1 := Round(key, p0, st0, l0);
             IsListing(st1, key, l1) && IsListing(Round(key, p1, st1, l1), key, l2)
    ensures var st3 := Round(key, p2, Round(key, p1, Round(key, p0, st0, l0), l1), l2);
            Reached(w, st3) && Good(key, st3, w, p0.recreate)
  {
    StagesAreBounded(w, st0);
    RoundShrinks(key, p0, st0, l0, w, 2);
    TwoMoreRounds(key, w, Round(key, p0, st0, l0), p1, p2, l1, l2);
  }

  lemma StagesAreBounded(w: Wanted, st: Store)
    ensures Within(w, st, 3)
  {
  }

  lemma TwoMoreRounds(key: OwnerKey, w: Wanted, st1: Store, p1: Policy, p2: Policy, l1: seq<Slice>, l2: seq<Slice>)
    requires Good(key, st1, w, p1.recreate) && p1.recreate == p2.recreate && Within(w, st1, 2)
    requires IsListing(st1, key, l1) && IsListing(Round(key, p1, st1, l1), key, l2)
    ensures var st3 := Round(key, p2, Round(key, p1, st1, l1), l2);
            Reached(w, st3) && Good(key, st3, w, p1.recreate)
  {
    RoundShrinks(key, p1, st1, l1, w, 1);
    var st2 := Round(key, p1, st1, l1);
    RoundShrinks(key, p2, st2, l2, w, 0);
    StageZeroIsReached(w, Round(key, p2, st2, l2));
  }

  lemma StageZeroIsReached(w: Wanted, st: Store)
    ensures Within(w, st, 0) <==> Reached(w, st)
  {
    forall d | d in w.slices
      ensures Stage(d, st.slices, w.legacy) == 0 <==>
              var found := Lookup(d.name, st.slices, w.legacy); found.Some? && found.value.partitions == d.partitions
    {
    }
  }

  /** Once reached, a pass changes no slice and asks for no wake-up. */
  lemma ReachedIsStable(key: OwnerKey, w: Wanted, st: Store, p: Policy, listed: seq<Slice>)
    requires Good(key, st, w, p.recreate) && IsListing(st, key, listed) && Reached(w, st)
    ensures Quiet(key, p, st, listed).store.slices == st.slices
    ensures Quiet(key, p, st, listed).result == Succeeded(0)
    ensures Round(key, p, st, listed).slices == st.slices
  {
    NothingToDo(key, w, st, p, listed);
    QuietPass(key, p, st, listed, w);
    assert Settle(st).slices == st.slices;
  }

  lemma NothingToDo(key: OwnerKey, w: Wanted, st: Store, p: Policy, listed: seq<Slice>)
    requires Good(key, st, w, p.recreate) && IsListing(st, key, listed) && Reached(w, st)
    ensures Diff(w.slices, listed, w.legacy, p) == Plan([], [], 0)
  {
    var plan := Diff(w.slices, listed, w.legacy, p);
    forall d | d in w.slices ensures Judge(d, Index(listed), w.legacy, p).Keep? { JudgeGood(key, st, w, p, listed, d); }
    NoDelays(w.slices, Index(listed), w.legacy, p, |w.slices|);
    if plan.toCreate != [] { InCreates(w.slices, Index(listed), w.legacy, p, plan.toCreate[0]); }
    if plan.toDelete != [] { InDeletes(w.slices, Index(listed), w.legacy, p, plan.toDelete[0]); }
  }
}
