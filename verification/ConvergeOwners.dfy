/** Convergence for every JobSet and LeaderWorkerSet: their desired slices meet the hypotheses of
    `Converge` on names and partitions, and three passes can be needed. */
module ConvergeOwners {
  import opened Base
  import opened Names
  import opened Slices
  import opened Desired
  import opened Cluster
  import opened Exclusive
  import opened Converge

  // ---- JobSets ----

  /** Every entry of the legacy map comes from a slot whose two names differ. */
  lemma {:induction false} SlotLegacyFrom(name: string, uid: string, slots: seq<Slot>, a: string)
    requires |uid| >= 8 && a in SlotLegacy(name, uid, slots)
    ensures exists x :: x in slots && IsRenamed(name, uid, x, a, SlotLegacy(name, uid, slots)[a])
  {
    var init, last := slots[..|slots| - 1], slots[|slots| - 1];
    if IsRenamed(name, uid, last, a, SlotLegacy(name, uid, slots)[a]) {
      assert last in slots;
    } else {
      SlotLegacyFrom(name, uid, init, a);
      var x :| x in init && IsRenamed(name, uid, x, a, SlotLegacy(name, uid, init)[a]);
      assert x in slots;
    }
  }

  predicate IsRenamed(name: string, uid: string, x: Slot, newName: string, oldName: string)
    requires |uid| >= 8
  {
    newName == SliceName(name, uid, x.job.name, x.index) && oldName == LegacySliceName(name, uid, x.job.name, x.index)
    && newName != oldName
  }

  lemma LegacyNamesApart(name: string, uid: string, x: Slot, y: Slot, a: string, b: string, oldName: string)
    requires UidLike(uid) && x.job.name != "" && y.job.name != ""
    requires IsRenamed(name, uid, x, a, oldName) && IsRenamed(name, uid, y, b, oldName)
    ensures a == b
  {
    OwnLegacyNamesMeetIff(name, uid, x.job.name, x.index, y.job.name, y.index);
    ShorterPrefix(x.job.name, y.job.name, 8, 10);
  }

  lemma ShorterPrefix(s: string, t: string, n: nat, m: nat)
    requires n <= m && Prefix(s, m) == Prefix(t, m)
    ensures Prefix(s, n) == Prefix(t, n)
  {
    assert Prefix(s, n) == Prefix(Prefix(s, m), n);
    assert Prefix(t, n) == Prefix(Prefix(t, m), n);
  }

  lemma LegacyIsNoNewName(name: string, uid: string, x: Slot, y: Slot, a: string, oldName: string)
    requires UidLike(uid) && x.job.name != "" && y.job.name != "" && IsRenamed(name, uid, x, a, oldName)
    ensures oldName != SliceName(name, uid, y.job.name, y.index)
  {
    NewMeetsLegacyIff(name, uid, y.job.name, y.index, x.job.name, x.index);
    NewMeetsLegacyIff(name, uid, x.job.name, x.index, x.job.name, x.index);
  }

  predicate NamedJobs(js: JobSet) { forall rj :: rj in js.jobs ==> rj.name != "" }

  lemma SlotsAreNamed(js: JobSet)
    requires NamedJobs(js)
    ensures forall x :: x in Slots(js.jobs) ==> x.job.name != ""
  {
    forall x | x in Slots(js.jobs) ensures x.job.name != "" { SlotsComplete(js.jobs, x); }
  }

  lemma SlotLegacyApart(name: string, uid: string, slots: seq<Slot>, a: string, b: string)
    requires UidLike(uid) && (forall x :: x in slots ==> x.job.name != "")
    requires a in SlotLegacy(name, uid, slots) && b in SlotLegacy(name, uid, slots)
    requires SlotLegacy(name, uid, slots)[a] == SlotLegacy(name, uid, slots)[b]
    ensures a == b
  {
    var oldName := SlotLegacy(name, uid, slots)[a];
    SlotLegacyFrom(name, uid, slots, a);
    SlotLegacyFrom(name, uid, slots, b);
    var x :| x in slots && IsRenamed(name, uid, x, a, oldName);
    var y :| y in slots && IsRenamed(name, uid, y, b, oldName);
    LegacyNamesApart(name, uid, x, y, a, b, oldName);
  }

  lemma SlotLegacyIsNoNewName(name: string, uid: string, slots: seq<Slot>, a: string, y: Slot)
    requires UidLike(uid) && (forall x :: x in slots ==> x.job.name != "")
    requires a in SlotLegacy(name, uid, slots) && y in slots
    ensures SlotLegacy(name, uid, slots)[a] != SliceName(name, uid, y.job.name, y.index)
  {
    SlotLegacyFrom(name, uid, slots, a);
    var x :| x in slots && IsRenamed(name, uid, x, a, SlotLegacy(name, uid, slots)[a]);
    LegacyIsNoNewName(name, uid, x, y, a, SlotLegacy(name, uid, slots)[a]);
  }

  lemma JobSetSlicesApart(key: OwnerKey, js: JobSet)
    requires JobSetWants(key, js).Some? && UidLike(js.uid) && NamedJobs(js) && DistinctJobs(js.jobs)
    requires DistinctPrefixes(js.jobs)
    ensures NamesApart(JobSetWants(key, js).value) && PairwiseDisjoint(JobSetWants(key, js).value.slices)
  {
    var w, slots := JobSetWants(key, js).value, Slots(js.jobs);
    JobSetNamesDistinctIff(key, js);
    SlotsAreNamed(js);
    forall a, b | a in w.legacy && b in w.legacy && w.legacy[a] == w.legacy[b] ensures a == b {
      SlotLegacyApart(key.name, js.uid, slots, a, b);
    }
    forall a, d | a in w.legacy && d in w.slices ensures w.legacy[a] != d.name {
      var k :| 0 <= k < |slots| && w.slices[k] == d;
      SlotLegacyIsNoNewName(key.name, js.uid, slots, a, slots[k]);
    }
    JobSetSlicesDisjoint(key, js);
  }

  /** For a JobSet with a dash-free UID, named jobs and distinct eight-character job prefixes, at most three
      failure-free passes reach every desired slice. */
  lemma JobSetsConverge(key: OwnerKey, js: JobSet, st0: Store, p0: Policy, p1: Policy, p2: Policy,
                        l0: seq<Slice>, l1: seq<Slice>, l2: seq<Slice>)
    requires JobSetWants(key, js).Some? && UidLike(js.uid) && NamedJobs(js) && DistinctJobs(js.jobs)
    requires DistinctPrefixes(js.jobs)
    requires Calm(key, st0, JobSetWants(key, js).value, p0.recreate) && p0.recreate == p1.recreate == p2.recreate
    requires IsListing(st0, key, l0)
    requires var st1 := Round(key, p0, st0, l0);
             IsListing(st1, key, l1) && IsListing(Round(key, p1, st1, l1), key, l2)
    ensures Reached(JobSetWants(key, js).value, Round(key, p2, Round(key, p1, Round(key, p0, st0, l0), l1), l2))
  {
    JobSetSlicesApart(key, js);
    ThreePassesConverge(key, JobSetWants(key, js).value, st0, p0, p1, p2, l0, l1, l2);
  }

  // ---- LeaderWorkerSets ----

  predicate IsLwsName(key: OwnerKey, lws: Lws, c: string, i: int, name: string) {
    LwsPart(c, i) && name == LWSSliceName(key.name, lws.uid, c, i)
  }

  predicate IsLwsRenamed(key: OwnerKey, lws: Lws, c: string, i: int, newName: string, oldName: string) {
    IsLwsName(key, lws, c, i, newName) && oldName == LegacyLWSSliceName(key.name, lws.uid, c, i) && newName != oldName
  }

  lemma {:induction false} LwsNameFrom(key: OwnerKey, lws: Lws, n: nat, d: Slice) returns (c: string, i: int)
    requires lws.selection.LwsParsed? && d in LwsUpTo(key, lws, n).slices
    ensures IsLwsName(key, lws, c, i, d.name)
  {
    c, i := if n == 0 then "leader" else "worker", n - 1;
    if n > 0 && d in LwsUpTo(key, lws, n - 1).slices { c, i := LwsNameFrom(key, lws, n - 1, d); }
  }

  /** Every entry of the legacy map comes from a part whose two names differ. */
  lemma {:induction false} LwsLegacyFrom(key: OwnerKey, lws: Lws, n: nat, a: string) returns (c: string, i: int)
    requires lws.selection.LwsParsed? && a in LwsUpTo(key, lws, n).legacy
    ensures IsLwsRenamed(key, lws, c, i, a, LwsUpTo(key, lws, n).legacy[a])
  {
    c, i := if n == 0 then "leader" else "worker", n - 1;
    if !IsLwsRenamed(key, lws, c, i, a, LwsUpTo(key, lws, n).legacy[a]) { c, i := LwsLegacyFrom(key, lws, n - 1, a); }
  }

  lemma LwsLegacyApart(key: OwnerKey, lws: Lws, n: nat, a: string, b: string)
    requires lws.selection.LwsParsed? && a in LwsUpTo(key, lws, n).legacy && b in LwsUpTo(key, lws, n).legacy
    requires LwsUpTo(key, lws, n).legacy[a] == LwsUpTo(key, lws, n).legacy[b]
    ensures a == b
  {
    var c, i := LwsLegacyFrom(key, lws, n, a);
    var c', i' := LwsLegacyFrom(key, lws, n, b);
    LwsNameDecodable(32, key.name, lws.uid, c, i, 32, key.name, lws.uid, c', i');
  }

  lemma LwsLegacyIsNoNewName(key: OwnerKey, lws: Lws, n: nat, a: string, d: Slice)
    requires lws.selection.LwsParsed? && a in LwsUpTo(key, lws, n).legacy && d in LwsUpTo(key, lws, n).slices
    ensures LwsUpTo(key, lws, n).legacy[a] != d.name
  {
    var c, i := LwsLegacyFrom(key, lws, n, a);
    var c', i' := LwsNameFrom(key, lws, n, d);
    LwsNameDecodable(32, key.name, lws.uid, c, i, 23, key.name, lws.uid, c', i');
    LwsNameDecodable(32, key.name, lws.uid, c, i, 23, key.name, lws.uid, c, i);
  }

  /** The names of a LeaderWorkerSet are always apart. */
  lemma LwsNamesApart(key: OwnerKey, lws: Lws)
    requires lws.selection.LwsParsed?
    ensures NamesApart(LwsWants(key, lws).value)
  {
    var n := if LwsReplicas(lws) > 0 then LwsReplicas(lws) else 0;
    var w := LwsUpTo(key, lws, n);
    LwsNamesDistinct(key, lws, n);
    forall a, b | a in w.legacy && b in w.legacy && w.legacy[a] == w.legacy[b] ensures a == b {
      LwsLegacyApart(key, lws, n, a, b);
    }
    forall a, d | a in w.legacy && d in w.slices ensures w.legacy[a] != d.name {
      LwsLegacyIsNoNewName(key, lws, n, a, d);
    }
  }

  /** For a LeaderWorkerSet none of whose groups share an ID, at most three failure-free passes reach every
      desired slice. */
  lemma LwsConverge(key: OwnerKey, lws: Lws, st0: Store, p0: Policy, p1: Policy, p2: Policy,
                    l0: seq<Slice>, l1: seq<Slice>, l2: seq<Slice>)
    requires lws.selection.LwsParsed? && SelectionApart(lws)
    requires Calm(key, st0, LwsWants(key, lws).value, p0.recreate) && p0.recreate == p1.recreate == p2.recreate
    requires IsListing(st0, key, l0)
    requires var st1 := Round(key, p0, st0, l0);
             IsListing(st1, key, l1) && IsListing(Round(key, p1, st1, l1), key, l2)
    ensures Reached(LwsWants(key, lws).value, Round(key, p2, Round(key, p1, Round(key, p0, st0, l0), l1), l2))
  {
    LwsNamesApart(key, lws);
    LwsDisjointIff(key, lws);
    ThreePassesConverge(key, LwsWants(key, lws).value, st0, p0, p1, p2, l0, l1, l2);
  }

  // ---- Three passes can be needed ----

  /** Both names of `d` are taken by slices with other partitions. */
  predicate TwiceOff(d: Slice, m: map<string, Slice>, legacy: map<string, string>) {
    && d.name in m && m[d.name].partitions != d.partitions
    && d.name in legacy && legacy[d.name] in m && m[legacy[d.name]].partitions != d.partitions
  }

  /** From such a store neither one nor two failure-free passes are enough. */
  lemma TwoPassesAreNotEnough(key: OwnerKey, w: Wanted, st0: Store, p0: Policy, p1: Policy, l0: seq<Slice>,
                              l1: seq<Slice>, d: Slice)
    requires Good(key, st0, w, p0.recreate) && p0.recreate == p1.recreate
    requires IsListing(st0, key, l0) && IsListing(Round(key, p0, st0, l0), key, l1)
    requires d in w.slices && TwiceOff(d, st0.slices, w.legacy)
    ensures var st1 := Round(key, p0, st0, l0); !Reached(w, st1) && !Reached(w, Round(key, p1, st1, l1))
  {
    var st1 := Round(key, p0, st0, l0);
    RoundMap(key, p0, st0, l0, w);
    DoomedWhen(w, st0.slices, d);
    assert Stage(d, st1.slices, w.legacy) == 2;
    StaysGood(key, p0, st0, l0, w);
    StageAfter(key, p1, st1, l1, w, d);
    StageZeroIsReached(w, st1);
    StageZeroIsReached(w, Round(key, p1, st1, l1));
  }

  /** And every owner with a desired slice whose legacy name differs has such a store. */
  lemma SuchAStoreExists(key: OwnerKey, o: Owner, w: Wanted, recreate: seq<RecreateCondition>, d: Slice)
    returns (st: Store)
    requires Asks(key, Store(map[key := o], map[], 0), w) && NamesApart(w) && PairwiseDisjoint(w.slices)
    requires d in w.slices && d.name in w.legacy
    ensures Good(key, st, w, recreate) && TwiceOff(d, st.slices, w.legacy)
  {
    var oldName := w.legacy[d.name];
    var wrong := d.partitions + ["x"];
    var a := Slice(d.name, Some(key), d.accelerator, d.topology, wrong, [], 0, false);
    var b := a.(name := oldName);
    st := Store(map[key := o], map[d.name := a, oldName := b], 0);
    assert |wrong| != |d.partitions| && oldName != d.name;
    assert forall n :: n in st.slices ==> n == d.name || n == oldName;
    assert TwiceOff(d, st.slices, w.legacy);
    assert Relevant(w, st.slices, d.name) && Relevant(w, st.slices, oldName);
  }
}
