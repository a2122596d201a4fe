/** The slices a JobSet or a LeaderWorkerSet asks for (internal/controller/jobset_slice_controller.go
    and internal/controller/lws_slice_controller.go). */
module Desired {
  import opened Base
  import opened Labels
  import opened Names
  import opened Slices

  predicate IsTpu7x(accelerator: string) {
    accelerator == "tpu7x" || accelerator == "tpu-v7x"
  }

  /** The slice selection annotation of a JobSet after JSON decoding. */
  datatype Selection = NoAnnotations | NoSelection | Malformed | Parsed(cubes: map<string, seq<seq<string>>>)

  datatype ReplicatedJob = ReplicatedJob(
    name: string, replicas: int, nodeSelector: Option<map<string, string>>, annotations: Option<map<string, string>>)

  datatype JobSet = JobSet(uid: Uid, jobs: seq<ReplicatedJob>, selection: Selection)

  /** A pod template; an absent map reads as an empty one. */
  datatype Template = Template(nodeSelector: map<string, string>, annotations: map<string, string>)

  /** The slice selection annotation of a LeaderWorkerSet after JSON decoding; no annotation selects
      nothing. */
  datatype LwsSelection = LwsMalformed | LwsParsed(leader: seq<string>, workers: seq<seq<string>>)

  datatype Lws = Lws(uid: Uid, replicas: Option<int>, leader: Option<Template>, worker: Template,
                     selection: LwsSelection)

  /** The desired slices and the legacy names they may exist under. */
  datatype Wanted = Wanted(slices: seq<Slice>, legacy: map<string, string>)

  function Get(m: map<string, string>, key: string): string {
    if key in m then m[key] else ""
  }

  function GetIn(m: Option<map<string, string>>, key: string): string {
    if m.Some? then Get(m.value, key) else ""
  }

  // ---- JobSet ----

  function Cubes(selection: Selection): Option<map<string, seq<seq<string>>>> {
    match selection
    case NoAnnotations => Some(map[])
    case NoSelection => None
    case Malformed => None
    case Parsed(cubes) => Some(cubes)
  }

  predicate Eligible(rj: ReplicatedJob) {
    rj.nodeSelector.Some? && IsTpu7x(Get(rj.nodeSelector.value, ACCELERATOR))
    && rj.annotations.Some? && TOPOLOGY in rj.annotations.value
  }

  /** One replica of one eligible replicated job. */
  datatype Slot = Slot(job: ReplicatedJob, index: nat)

  function FirstSlots(rj: ReplicatedJob, n: nat): (r: seq<Slot>)
    ensures |r| == n && forall i :: 0 <= i < n ==> r[i] == Slot(rj, i)
  {
    if n == 0 then [] else FirstSlots(rj, n - 1) + [Slot(rj, n - 1)]
  }

  function SlotsOf(rj: ReplicatedJob): seq<Slot> {
    if Eligible(rj) && rj.replicas > 0 then FirstSlots(rj, rj.replicas) else []
  }

  function Slots(jobs: seq<ReplicatedJob>): seq<Slot>
  {
    if jobs == [] then [] else Slots(jobs[..|jobs| - 1]) + SlotsOf(jobs[|jobs| - 1])
  }

  function SlotCubes(cubes: map<string, seq<seq<string>>>, x: Slot): seq<string> {
    if x.job.name in cubes && |cubes[x.job.name]| > x.index then cubes[x.job.name][x.index] else []
  }

  function SlotSlice(key: OwnerKey, uid: string, cubes: map<string, seq<seq<string>>>, x: Slot): Slice
    requires |uid| >= 8
  {
    Slice(SliceName(key.name, uid, x.job.name, x.index), Some(key), GetIn(x.job.nodeSelector, ACCELERATOR),
          GetIn(x.job.annotations, TOPOLOGY), SlotCubes(cubes, x), [], 0, false)
  }

  function SlotIds(cubes: map<string, seq<seq<string>>>, slots: seq<Slot>): seq<string> {
    if slots == [] then []
    else SlotIds(cubes, slots[..|slots| - 1]) + SlotCubes(cubes, slots[|slots| - 1])
  }

  function SlotLegacy(name: string, uid: string, slots: seq<Slot>): map<string, string>
    requires |uid| >= 8
  {
    if slots == [] then map[]
    else
      var rest := SlotLegacy(name, uid, slots[..|slots| - 1]);
      var x := slots[|slots| - 1];
      var newName := SliceName(name, uid, x.job.name, x.index);
      var oldName := LegacySliceName(name, uid, x.job.name, x.index);
      if newName != oldName then rest[newName := oldName] else rest
  }

  function SlotSlices(key: OwnerKey, uid: string, cubes: map<string, seq<seq<string>>>,
                      slots: seq<Slot>): (r: seq<Slice>)
    requires |uid| >= 8
    ensures |r| == |slots|
    ensures forall k :: 0 <= k < |slots| ==> r[k] == SlotSlice(key, uid, cubes, slots[k])
  {
    seq(|slots|, k requires 0 <= k < |slots| => SlotSlice(key, uid, cubes, slots[k]))
  }

  /** The slices of a JobSet: one per replica of each eligible job, in order, unless the selection is
      absent or malformed or some partition ID occurs twice anywhere in it. */
  function JobSetWants(key: OwnerKey, js: JobSet): Option<Wanted>
  {
    var cubes := Cubes(js.selection);
    if cubes.None? then None
    else
      var slots := Slots(js.jobs);
      if !NoRepeat(SlotIds(cubes.value, slots)) then None
      else Some(Wanted(SlotSlices(key, js.uid, cubes.value, slots), SlotLegacy(key.name, js.uid, slots)))
  }

  lemma {:induction false} SlotIdsPrefix(cubes: map<string, seq<seq<string>>>, a: seq<Slot>, b: seq<Slot>)
    requires a <= b
    ensures SlotIds(cubes, a) <= SlotIds(cubes, b)
  {
    if a != b {
      assert a <= b[..|b| - 1];
      SlotIdsPrefix(cubes, a, b[..|b| - 1]);
    }
  }

  lemma {:induction false} SlotsPrefix(jobs: seq<ReplicatedJob>, n: nat)
    requires n <= |jobs|
    ensures Slots(jobs[..n]) <= Slots(jobs)
  {
    if n < |jobs| {
      SlotsPrefix(jobs[..|jobs| - 1], n);
      assert jobs[..|jobs| - 1][..n] == jobs[..n];
    } else {
      assert jobs[..n] == jobs;
    }
  }

  lemma SlotSnoc(key: OwnerKey, uid: string, cubes: map<string, seq<seq<string>>>, done: seq<Slot>, x: Slot)
    requires |uid| >= 8
    ensures SlotSlices(key, uid, cubes, done + [x]) ==
            SlotSlices(key, uid, cubes, done) + [SlotSlice(key, uid, cubes, x)]
    ensures SlotIds(cubes, done + [x]) == SlotIds(cubes, done) + SlotCubes(cubes, x)
    ensures SlotLegacy(key.name, uid, done + [x]) ==
            var newName := SliceName(key.name, uid, x.job.name, x.index);
            var oldName := LegacySliceName(key.name, uid, x.job.name, x.index);
            if newName != oldName then SlotLegacy(key.name, uid, done)[newName := oldName]
            else SlotLegacy(key.name, uid, done)
  {
    assert (done + [x])[..|done|] == done;
  }

  /** The duplicate check: `used` holds the IDs seen so far. */
  method ClaimIds(used: set<string>, ids: seq<string>, ghost seen: seq<string>) returns (ok: bool, used': set<string>)
    requires NoRepeat(seen) && used == set p | p in seen
    ensures ok <==> NoRepeat(seen + ids)
    ensures ok ==> used' == set p | p in seen + ids
  {
    used' := used;
    assert seen + ids[..0] == seen;
    for q := 0 to |ids|
      invariant NoRepeat(seen + ids[..q]) && used' == set p | p in seen + ids[..q]
    {
      ghost var now := seen + ids[..q];
      ghost var next := seen + ids[..q + 1];
      assert next == now + [ids[q]];
      assert next[..|now|] == now;
      if ids[q] in used' {
        if NoRepeat(seen + ids) { NoRepeatPrefix(next, seen + ids); }
        return false, used';
      }
      used' := used' + {ids[q]};
    }
    assert ids[..|ids|] == ids;
    return true, used';
  }

  /** What the loops of `jobsetSlices` have built after the slots `done`. */
  ghost predicate Built(key: OwnerKey, uid: string, cubes: map<string, seq<seq<string>>>, done: seq<Slot>,
                        slices: seq<Slice>, legacy: map<string, string>, used: set<string>)
    requires |uid| >= 8
  {
    && slices == SlotSlices(key, uid, cubes, done)
    && legacy == SlotLegacy(key.name, uid, done)
    && NoRepeat(SlotIds(cubes, done)) && used == set p | p in SlotIds(cubes, done)
  }

  method JobSetSlices(key: OwnerKey, js: JobSet) returns (wanted: Option<Wanted>)
    ensures wanted == JobSetWants(key, js)
  {
    var parsed := Cubes(js.selection);
    if parsed.None? { return None; }
    var cubes := parsed.value;
    var slices: seq<Slice> := [];
    var legacy: map<string, string> := map[];
    var used: set<string> := {};
    for j := 0 to |js.jobs|
      invariant Built(key, js.uid, cubes, Slots(js.jobs[..j]), slices, legacy, used)
    {
      var rj := js.jobs[j];
      ghost var before := Slots(js.jobs[..j]);
      assert js.jobs[..j + 1][..j] == js.jobs[..j];
      assert Slots(js.jobs[..j + 1]) == before + SlotsOf(rj);
      if !Eligible(rj) {
        assert before + SlotsOf(rj) == before;
        continue;
      }
      var ok;
      ok, slices, legacy, used := AddReplicas(key, js.uid, cubes, rj, slices, legacy, used, before);
      if !ok {
        SlotsPrefix(js.jobs, j + 1);
        RepeatPersists(cubes, before + SlotsOf(rj), Slots(js.jobs));
        return None;
      }
    }
    assert js.jobs[..|js.jobs|] == js.jobs;
    return Some(Wanted(slices, legacy));
  }

  lemma RepeatPersists(cubes: map<string, seq<seq<string>>>, a: seq<Slot>, b: seq<Slot>)
    requires a <= b && !NoRepeat(SlotIds(cubes, a))
    ensures !NoRepeat(SlotIds(cubes, b))
  {
    SlotIdsPrefix(cubes, a, b);
    if NoRepeat(SlotIds(cubes, b)) { NoRepeatPrefix(SlotIds(cubes, a), SlotIds(cubes, b)); }
  }

  lemma {:induction false} FirstSlotsPrefix(rj: ReplicatedJob, i: nat, n: nat)
    requires i <= n
    ensures FirstSlots(rj, i) <= FirstSlots(rj, n)
  {
  }

  lemma NextSlot(before: seq<Slot>, rj: ReplicatedJob, i: nat)
    requires Eligible(rj) && i < rj.replicas
    ensures before + FirstSlots(rj, i) + [Slot(rj, i)] == before + FirstSlots(rj, i + 1) <= before + SlotsOf(rj)
  {
    FirstSlotsPrefix(rj, i + 1, rj.replicas);
  }

  /** The replica loop of one eligible job. */
  method AddReplicas(key: OwnerKey, uid: string, cubes: map<string, seq<seq<string>>>, rj: ReplicatedJob,
                     slices0: seq<Slice>, legacy0: map<string, string>, used0: set<string>, ghost before: seq<Slot>)
    returns (ok: bool, slices: seq<Slice>, legacy: map<string, string>, used: set<string>)
    requires |uid| >= 8 && Eligible(rj)
    requires Built(key, uid, cubes, before, slices0, legacy0, used0)
    ensures ok ==> Built(key, uid, cubes, before + SlotsOf(rj), slices, legacy, used)
    ensures !ok ==> !NoRepeat(SlotIds(cubes, before + SlotsOf(rj)))
  {
    slices, legacy, used := slices0, legacy0, used0;
    var i := 0;
    ghost var done := before;
    while i < rj.replicas
      invariant 0 <= i && (i <= rj.replicas || i == 0)
      invariant done == before + FirstSlots(rj, i)
      invariant Built(key, uid, cubes, done, slices, legacy, used)
    {
      ghost var next := done + [Slot(rj, i)];
      NextSlot(before, rj, i);
      ok, slices, legacy, used := AddSlot(key, uid, cubes, rj, i, slices, legacy, used, done);
      if !ok {
        RepeatPersists(cubes, next, before + SlotsOf(rj));
        return;
      }
      done := next;
      i := i + 1;
    }
    ok := true;
  }

  method AddSlot(key: OwnerKey, uid: string, cubes: map<string, seq<seq<string>>>, rj: ReplicatedJob, i: nat,
                 slices0: seq<Slice>, legacy0: map<string, string>, used0: set<string>, ghost done: seq<Slot>)
    returns (ok: bool, slices: seq<Slice>, legacy: map<string, string>, used: set<string>)
    requires |uid| >= 8 && Eligible(rj)
    requires Built(key, uid, cubes, done, slices0, legacy0, used0)
    ensures ok ==> Built(key, uid, cubes, done + [Slot(rj, i)], slices, legacy, used)
    ensures !ok ==> !NoRepeat(SlotIds(cubes, done + [Slot(rj, i)]))
  {
    slices, legacy := slices0, legacy0;
    SlotSnoc(key, uid, cubes, done, Slot(rj, i));
    var newName := SliceName(key.name, uid, rj.name, i);
    var legacyName := LegacySliceName(key.name, uid, rj.name, i);
    if newName != legacyName { legacy := legacy[newName := legacyName]; }
    var ids: seq<string> := [];
    if rj.name in cubes && |cubes[rj.name]| >= i + 1 { ids := cubes[rj.name][i]; }
    slices := slices + [Slice(newName, Some(key), rj.nodeSelector.value[ACCELERATOR], rj.annotations.value[TOPOLOGY],
                              ids, [], 0, false)];
    ok, used := ClaimIds(used0, ids, SlotIds(cubes, done));
  }

  lemma {:induction false} SlotsComplete(jobs: seq<ReplicatedJob>, x: Slot)
    ensures x in Slots(jobs) <==> x.job in jobs && Eligible(x.job) && x.index < x.job.replicas
  {
    if jobs != [] {
      var init, last := jobs[..|jobs| - 1], jobs[|jobs| - 1];
      SlotsComplete(init, x);
      assert jobs == init + [last];
      if x.job == last && Eligible(last) && x.index < last.replicas {
        assert SlotsOf(last)[x.index] == x;
      }
    }
  }

  // ---- What a JobSet asks for ----

  /** The job is for one of the two accelerators and names a topology. */
  predicate AsksForSlices(rj: ReplicatedJob) {
    && rj.nodeSelector.Some? && "cloud.google.com/gke-tpu-accelerator" in rj.nodeSelector.value
    && rj.nodeSelector.value["cloud.google.com/gke-tpu-accelerator"] in ["tpu7x", "tpu-v7x"]
    && rj.annotations.Some? && "cloud.google.com/gke-tpu-topology" in rj.annotations.value
  }

  /** `s` is the slice for replica `i` of job `rj`: the job's accelerator and topology, and the `i`-th entry that
      the selection has for the job, or no partition where it has none. */
  predicate IsJobSlice(key: OwnerKey, js: JobSet, rj: ReplicatedJob, i: nat, s: Slice) {
    && rj in js.jobs && AsksForSlices(rj) && i < rj.replicas
    && s.name == SliceName(key.name, js.uid, rj.name, i) && s.owner == Some(key)
    && s.accelerator == rj.nodeSelector.value["cloud.google.com/gke-tpu-accelerator"]
    && s.topology == rj.annotations.value["cloud.google.com/gke-tpu-topology"]
    && (if js.selection.Parsed? && rj.name in js.selection.cubes && i < |js.selection.cubes[rj.name]|
        then s.partitions == js.selection.cubes[rj.name][i] else s.partitions == [])
    && s.conditions == [] && s.created == 0 && !s.terminating
  }

  lemma SlotIsJobSlice(key: OwnerKey, js: JobSet, x: Slot, s: Slice)
    requires Cubes(js.selection).Some?
    ensures x in Slots(js.jobs) && s == SlotSlice(key, js.uid, Cubes(js.selection).value, x) <==>
            IsJobSlice(key, js, x.job, x.index, s)
  {
    SlotsComplete(js.jobs, x);
  }

  /** A JobSet asks for exactly the slices of the replicas of its eligible jobs. */
  lemma JobSetSlicesExactly(key: OwnerKey, js: JobSet)
    requires JobSetWants(key, js).Some?
    ensures forall s :: s in JobSetWants(key, js).value.slices <==>
                        exists rj, i: nat :: IsJobSlice(key, js, rj, i, s)
  {
    var slots, slices := Slots(js.jobs), JobSetWants(key, js).value.slices;
    forall s | s in slices ensures exists rj, i: nat :: IsJobSlice(key, js, rj, i, s) {
      var k :| 0 <= k < |slices| && slices[k] == s;
      SlotIsJobSlice(key, js, slots[k], s);
    }
    forall s, rj, i: nat | IsJobSlice(key, js, rj, i, s) ensures s in slices {
      SlotIsJobSlice(key, js, Slot(rj, i), s);
      var k :| 0 <= k < |slots| && slots[k] == Slot(rj, i);
      assert slices[k] == s;
    }
  }

  /** The one of the name of replica `i` of a job is the slice of that replica. */
  lemma JobSliceByName(key: OwnerKey, js: JobSet, rj: ReplicatedJob, i: nat, s: Slice)
    requires UidLike(js.uid) && DistinctPrefixes(js.jobs) && JobSetWants(key, js).Some?
    requires rj in js.jobs && AsksForSlices(rj) && i < rj.replicas
    requires s in JobSetWants(key, js).value.slices && s.name == SliceName(key.name, js.uid, rj.name, i)
    ensures IsJobSlice(key, js, rj, i, s)
  {
    JobSetSlicesExactly(key, js);
    var rj', i': nat :| IsJobSlice(key, js, rj', i', s);
    OneReplicaPerName(key, js, rj, i, rj', i');
  }

  lemma OneReplicaPerName(key: OwnerKey, js: JobSet, rj: ReplicatedJob, i: nat, rj': ReplicatedJob, i': nat)
    requires UidLike(js.uid) && DistinctPrefixes(js.jobs)
    requires rj in js.jobs && AsksForSlices(rj) && i < rj.replicas
    requires rj' in js.jobs && AsksForSlices(rj') && i' < rj'.replicas
    requires SliceName(key.name, js.uid, rj.name, i) == SliceName(key.name, js.uid, rj'.name, i')
    ensures rj == rj' && i == i'
  {
    SlotsComplete(js.jobs, Slot(rj, i));
    SlotsComplete(js.jobs, Slot(rj', i'));
    SameNameSameSlot(key, js, Slot(rj, i), Slot(rj', i'));
  }

  lemma {:induction false} SlotLegacyIs(name: string, uid: string, slots: seq<Slot>, x: Slot)
    requires |uid| >= 8 && x in slots
    requires forall y :: y in slots && y != x ==>
               SliceName(name, uid, y.job.name, y.index) != SliceName(name, uid, x.job.name, x.index)
    ensures var newName := SliceName(name, uid, x.job.name, x.index);
            var oldName := LegacySliceName(name, uid, x.job.name, x.index);
            if newName == oldName then newName !in SlotLegacy(name, uid, slots)
            else newName in SlotLegacy(name, uid, slots) && SlotLegacy(name, uid, slots)[newName] == oldName
  {
    var init, last := slots[..|slots| - 1], slots[|slots| - 1];
    assert slots == init + [last];
    if x in init { SlotLegacyIs(name, uid, init, x); } else { SlotLegacyHas(name, uid, init, x); }
  }

  lemma {:induction false} SlotLegacyHas(name: string, uid: string, slots: seq<Slot>, x: Slot)
    requires |uid| >= 8
    requires forall y :: y in slots ==>
               SliceName(name, uid, y.job.name, y.index) != SliceName(name, uid, x.job.name, x.index)
    ensures SliceName(name, uid, x.job.name, x.index) !in SlotLegacy(name, uid, slots)
  {
    if slots != [] {
      var init, last := slots[..|slots| - 1], slots[|slots| - 1];
      assert slots == init + [last];
      SlotLegacyHas(name, uid, init, x);
    }
  }

  /** Each slice is also looked for under its legacy name, if that is another one. */
  lemma JobSetLegacyNames(key: OwnerKey, js: JobSet, rj: ReplicatedJob, i: nat)
    requires UidLike(js.uid) && DistinctPrefixes(js.jobs) && JobSetWants(key, js).Some?
    requires rj in js.jobs && AsksForSlices(rj) && i < rj.replicas
    ensures var legacy := JobSetWants(key, js).value.legacy;
            var newName := SliceName(key.name, js.uid, rj.name, i);
            var oldName := LegacySliceName(key.name, js.uid, rj.name, i);
            if newName == oldName then newName !in legacy else newName in legacy && legacy[newName] == oldName
  {
    var slots, x := Slots(js.jobs), Slot(rj, i);
    SlotsComplete(js.jobs, x);
    forall y | y in slots && y != x
      ensures SliceName(key.name, js.uid, y.job.name, y.index) != SliceName(key.name, js.uid, rj.name, i)
    {
      if SliceName(key.name, js.uid, y.job.name, y.index) == SliceName(key.name, js.uid, rj.name, i) {
        SameNameSameSlot(key, js, y, x);
      }
    }
    SlotLegacyIs(key.name, js.uid, slots, x);
  }

  predicate DistinctJobs(jobs: seq<ReplicatedJob>) {
    forall i, j :: 0 <= i < j < |jobs| ==> jobs[i].name != jobs[j].name
  }

  lemma {:induction false} SlotsDistinct(jobs: seq<ReplicatedJob>)
    requires DistinctJobs(jobs)
    ensures Distinct(Slots(jobs))
  {
    if jobs != [] {
      var init, last := jobs[..|jobs| - 1], jobs[|jobs| - 1];
      SlotsDistinct(init);
      var a, b := Slots(init), SlotsOf(last);
      forall i, j | 0 <= i < j < |a + b| ensures (a + b)[i] != (a + b)[j] {
        if i < |a| && j >= |a| { SlotsComplete(init, a[i]); }
      }
    }
  }

  /** No two eligible jobs with replicas share their first eight characters. */
  predicate DistinctPrefixes(jobs: seq<ReplicatedJob>) {
    forall a, b :: a in jobs && b in jobs && a != b && Eligible(a) && Eligible(b) && a.replicas > 0 && b.replicas > 0
                   ==> Prefix(a.name, 8) != Prefix(b.name, 8)
  }

  /** Exactly when two eligible jobs share an eight-character prefix do two desired slices of one
      JobSet get the same name. */
  lemma JobSetNamesDistinctIff(key: OwnerKey, js: JobSet)
    requires UidLike(js.uid) && DistinctJobs(js.jobs) && JobSetWants(key, js).Some?
    ensures DistinctNames(JobSetWants(key, js).value.slices) <==> DistinctPrefixes(js.jobs)
  {
    var slices := JobSetWants(key, js).value.slices;
    SlotsDistinct(js.jobs);
    if DistinctPrefixes(js.jobs) {
      forall i, j | 0 <= i < j < |slices| ensures slices[i].name != slices[j].name {
        if slices[i].name == slices[j].name { SameNameSameSlot(key, js, Slots(js.jobs)[i], Slots(js.jobs)[j]); }
      }
    }
    if DistinctNames(slices) {
      forall a, b | a in js.jobs && b in js.jobs && a != b
                    && Eligible(a) && Eligible(b) && a.replicas > 0 && b.replicas > 0
        ensures Prefix(a.name, 8) != Prefix(b.name, 8)
      {
        DistinctNamesKeepPrefixesApart(key, js.uid, Cubes(js.selection).value, js.jobs, a, b);
      }
    }
  }

  lemma DistinctNamesKeepPrefixesApart(key: OwnerKey, uid: string, cubes: map<string, seq<seq<string>>>,
                                       jobs: seq<ReplicatedJob>, a: ReplicatedJob, b: ReplicatedJob)
    requires |uid| >= 8 && DistinctNames(SlotSlices(key, uid, cubes, Slots(jobs)))
    requires a in jobs && b in jobs && a != b && Eligible(a) && Eligible(b) && a.replicas > 0 && b.replicas > 0
    ensures Prefix(a.name, 8) != Prefix(b.name, 8)
  {
    SlotsComplete(jobs, Slot(a, 0));
    SlotsComplete(jobs, Slot(b, 0));
    SlotsNamedApart(key, uid, cubes, Slots(jobs), Slot(a, 0), Slot(b, 0));
    SamePrefixSameName(key.name, uid, a.name, b.name);
  }

  lemma SlotsNamedApart(key: OwnerKey, uid: string, cubes: map<string, seq<seq<string>>>, slots: seq<Slot>, x: Slot,
                        y: Slot)
    requires |uid| >= 8 && x in slots && y in slots && x != y
    requires DistinctNames(SlotSlices(key, uid, cubes, slots))
    ensures SliceName(key.name, uid, x.job.name, x.index) != SliceName(key.name, uid, y.job.name, y.index)
  {
    var i :| 0 <= i < |slots| && slots[i] == x;
    var j :| 0 <= j < |slots| && slots[j] == y;
    var slices := SlotSlices(key, uid, cubes, slots);
    assert slices[i] == SlotSlice(key, uid, cubes, x) && slices[j] == SlotSlice(key, uid, cubes, y);
    assert slices[i].name != slices[j].name;
  }

  lemma SamePrefixSameName(name: string, uid: string, a: string, b: string)
    requires |uid| >= 8
    ensures Prefix(a, 8) == Prefix(b, 8) ==> SliceName(name, uid, a, 0) == SliceName(name, uid, b, 0)
  {
  }

  lemma SameNameSameSlot(key: OwnerKey, js: JobSet, x: Slot, y: Slot)
    requires UidLike(js.uid) && DistinctPrefixes(js.jobs) && x in Slots(js.jobs) && y in Slots(js.jobs)
    requires SliceName(key.name, js.uid, x.job.name, x.index) == SliceName(key.name, js.uid, y.job.name, y.index)
    ensures x == y
  {
    SlotsComplete(js.jobs, x);
    SlotsComplete(js.jobs, y);
    SliceNameDecodable(key.name, js.uid, x.job.name, x.index, key.name, js.uid, y.job.name, y.index);
  }

  // ---- LeaderWorkerSet ----

  function LwsReplicas(lws: Lws): int { if lws.replicas.Some? then lws.replicas.value else 1 }

  function LwsSlice(key: OwnerKey, uid: string, t: Template, component: string, replica: int, ids: seq<string>): Slice
    requires |uid| >= 8
  {
    Slice(LWSSliceName(key.name, uid, component, replica), Some(key), Get(t.nodeSelector, ACCELERATOR),
          Get(t.annotations, TOPOLOGY), ids, [], 0, false)
  }

  function AddLegacy(legacy: map<string, string>, name: string, uid: string, component: string,
                     replica: int): map<string, string>
    requires |uid| >= 8
  {
    var newName := LWSSliceName(name, uid, component, replica);
    var oldName := LegacyLWSSliceName(name, uid, component, replica);
    if newName != oldName then legacy[newName := oldName] else legacy
  }

  predicate LeaderUsed(lws: Lws) { lws.leader.Some? && IsTpu7x(Get(lws.leader.value.nodeSelector, ACCELERATOR)) }

  predicate WorkersUsed(lws: Lws) { IsTpu7x(Get(lws.worker.nodeSelector, ACCELERATOR)) }

  /** The slice of worker group `i`. */
  function WorkerSlice(key: OwnerKey, lws: Lws, i: nat): Slice
    requires lws.selection.LwsParsed?
  {
    LwsSlice(key, lws.uid, lws.worker, "worker", i,
             if i < |lws.selection.workers| then lws.selection.workers[i] else [])
  }

  /** The wanted slices after `n` worker groups. */
  function LwsUpTo(key: OwnerKey, lws: Lws, n: nat): Wanted
    requires lws.selection.LwsParsed?
  {
    if n == 0 then
      if LeaderUsed(lws) then
        Wanted([LwsSlice(key, lws.uid, lws.leader.value, "leader", -1, lws.selection.leader)],
               AddLegacy(map[], key.name, lws.uid, "leader", -1))
      else Wanted([], map[])
    else
      var w := LwsUpTo(key, lws, n - 1);
      if WorkersUsed(lws) then
        Wanted(w.slices + [WorkerSlice(key, lws, n - 1)],
               AddLegacy(w.legacy, key.name, lws.uid, "worker", n - 1))
      else w
  }

  function LwsWants(key: OwnerKey, lws: Lws): Option<Wanted>
  {
    if lws.selection.LwsMalformed? then None
    else Some(LwsUpTo(key, lws, if LwsReplicas(lws) > 0 then LwsReplicas(lws) else 0))
  }

  method LwsSlices(key: OwnerKey, lws: Lws) returns (wanted: Option<Wanted>)
    ensures wanted == LwsWants(key, lws)
  {
    if lws.selection.LwsMalformed? { return None; }
    var slices: seq<Slice> := [];
    var legacy: map<string, string> := map[];
    var replicas := 1;
    if lws.replicas.Some? { replicas := lws.replicas.value; }
    if lws.leader.Some? {
      var accelerator := Get(lws.leader.value.nodeSelector, ACCELERATOR);
      if IsTpu7x(accelerator) {
        var newName := LWSSliceName(key.name, lws.uid, "leader", -1);
        var legacyName := LegacyLWSSliceName(key.name, lws.uid, "leader", -1);
        if newName != legacyName { legacy := legacy[newName := legacyName]; }
        slices := slices + [Slice(newName, Some(key), accelerator, Get(lws.leader.value.annotations, TOPOLOGY),
                                  lws.selection.leader, [], 0, false)];
      }
    }
    var i := 0;
    while i < replicas
      invariant 0 <= i && (i <= replicas || i == 0)
      invariant Wanted(slices, legacy) == LwsUpTo(key, lws, i)
    {
      var accelerator := Get(lws.worker.nodeSelector, ACCELERATOR);
      if IsTpu7x(accelerator) {
        var ids: seq<string> := [];
        if i < |lws.selection.workers| { ids := lws.selection.workers[i]; }
        var newName := LWSSliceName(key.name, lws.uid, "worker", i);
        var legacyName := LegacyLWSSliceName(key.name, lws.uid, "worker", i);
        if newName != legacyName { legacy := legacy[newName := legacyName]; }
        var topology := Get(lws.worker.annotations, TOPOLOGY);
        slices := slices + [Slice(newName, Some(key), accelerator, topology, ids, [], 0, false)];
      }
      i := i + 1;
    }
    return Some(Wanted(slices, legacy));
  }

  /** Where the slice of a group sits in the list: the leader slice, if any, comes first. */
  function LwsPosition(lws: Lws, replica: int): nat
    requires replica >= -1
  {
    var leaders := if LeaderUsed(lws) then 1 else 0;
    if replica == -1 then 0 else leaders + replica
  }

  lemma {:induction false} LwsShape(key: OwnerKey, lws: Lws, n: nat)
    requires lws.selection.LwsParsed?
    ensures var w := LwsUpTo(key, lws, n);
            && (LeaderUsed(lws) ==>
                  w.slices != []
                  && w.slices[0] == LwsSlice(key, lws.uid, lws.leader.value, "leader", -1, lws.selection.leader))
            && (WorkersUsed(lws) ==>
                  |w.slices| == LwsPosition(lws, n)
                  && forall i :: 0 <= i < n ==> w.slices[LwsPosition(lws, i)] == WorkerSlice(key, lws, i))
            && (!WorkersUsed(lws) ==> |w.slices| == LwsPosition(lws, 0))
  {
    if n > 0 { LwsShape(key, lws, n - 1); }
  }

  /** The template is for one of the two accelerators. */
  predicate OnTpu7x(t: Template) {
    "cloud.google.com/gke-tpu-accelerator" in t.nodeSelector
    && t.nodeSelector["cloud.google.com/gke-tpu-accelerator"] in ["tpu7x", "tpu-v7x"]
  }

  /** `s` is made from template `t`: its accelerator, and its topology if it names one. */
  predicate IsMadeFrom(key: OwnerKey, t: Template, s: Slice) {
    && OnTpu7x(t) && s.owner == Some(key)
    && s.accelerator == t.nodeSelector["cloud.google.com/gke-tpu-accelerator"]
    && (if "cloud.google.com/gke-tpu-topology" in t.annotations
        then s.topology == t.annotations["cloud.google.com/gke-tpu-topology"] else s.topology == "")
    && s.conditions == [] && s.created == 0 && !s.terminating
  }

  /** `s` is the slice of the leaders. */
  predicate IsLeaderSlice(key: OwnerKey, lws: Lws, s: Slice)
    requires lws.selection.LwsParsed?
  {
    && lws.leader.Some? && IsMadeFrom(key, lws.leader.value, s)
    && s.name == LWSSliceName(key.name, lws.uid, "leader", -1) && s.partitions == lws.selection.leader
  }

  /** `s` is the slice of worker group `i`, with the `i`-th entry of the selection if there is one; a set without
      a replica count has one group. */
  predicate IsWorkerSlice(key: OwnerKey, lws: Lws, i: nat, s: Slice)
    requires lws.selection.LwsParsed?
  {
    && (if lws.replicas.Some? then i < lws.replicas.value else i == 0) && IsMadeFrom(key, lws.worker, s)
    && s.name == LWSSliceName(key.name, lws.uid, "worker", i)
    && (if i < |lws.selection.workers| then s.partitions == lws.selection.workers[i] else s.partitions == [])
  }

  lemma WorkerSliceIs(key: OwnerKey, lws: Lws, i: nat, s: Slice)
    requires lws.selection.LwsParsed?
    ensures WorkersUsed(lws) && i < LwsReplicas(lws) && s == WorkerSlice(key, lws, i) <==> IsWorkerSlice(key, lws, i, s)
  {
  }

  /** A LeaderWorkerSet asks for exactly the slice of its leaders and those of its worker groups. */
  lemma LwsSlicesExactly(key: OwnerKey, lws: Lws)
    requires LwsWants(key, lws).Some?
    ensures forall s :: s in LwsWants(key, lws).value.slices <==>
                        IsLeaderSlice(key, lws, s) || exists i: nat :: IsWorkerSlice(key, lws, i, s)
  {
    var n := if LwsReplicas(lws) > 0 then LwsReplicas(lws) else 0;
    var slices := LwsWants(key, lws).value.slices;
    LwsShape(key, lws, n);
    forall s | s in slices ensures IsLeaderSlice(key, lws, s) || exists i: nat :: IsWorkerSlice(key, lws, i, s) {
      var k :| 0 <= k < |slices| && slices[k] == s;
      var g := GroupAt(lws, k);
      if g >= 0 {
        assert k == LwsPosition(lws, g) && g < n;
        WorkerSliceIs(key, lws, g, s);
      }
    }
    forall s, i: nat | IsWorkerSlice(key, lws, i, s) ensures s in slices {
      WorkerSliceIs(key, lws, i, s);
      assert slices[LwsPosition(lws, i)] == s;
    }
  }

  predicate Renames(legacy: map<string, string>, newName: string, oldName: string) {
    if newName == oldName then newName !in legacy else newName in legacy && legacy[newName] == oldName
  }

  lemma WorkerNamesDiffer(key: OwnerKey, lws: Lws, c: string, i: int, n: nat)
    requires LwsPart(c, i) && i < n
    ensures LWSSliceName(key.name, lws.uid, "worker", n) != LWSSliceName(key.name, lws.uid, c, i)
  {
    LWSSliceNameDecodable(key.name, lws.uid, c, i, key.name, lws.uid, "worker", n);
  }

  lemma {:induction false} LwsLegacyLacks(key: OwnerKey, lws: Lws, n: nat, i: nat)
    requires lws.selection.LwsParsed? && n <= i
    ensures LWSSliceName(key.name, lws.uid, "worker", i) !in LwsUpTo(key, lws, n).legacy
  {
    if n == 0 {
      WorkerNamesDiffer(key, lws, "leader", -1, i);
    } else {
      WorkerNamesDiffer(key, lws, "worker", n - 1, i);
      LwsLegacyLacks(key, lws, n - 1, i);
    }
  }

  lemma {:induction false} LwsRenames(key: OwnerKey, lws: Lws, n: nat, c: string, i: int)
    requires lws.selection.LwsParsed? && LwsPart(c, i) && i < n
    requires if i == -1 then c == "leader" && LeaderUsed(lws) else c == "worker" && WorkersUsed(lws)
    ensures Renames(LwsUpTo(key, lws, n).legacy, LWSSliceName(key.name, lws.uid, c, i),
                    LegacyLWSSliceName(key.name, lws.uid, c, i))
  {
    if n > 0 && i < n - 1 {
      WorkerNamesDiffer(key, lws, c, i, n - 1);
      LwsRenames(key, lws, n - 1, c, i);
    } else if n > 0 {
      LwsLegacyLacks(key, lws, n - 1, i);
    }
  }

  /** A slice of either kind is also looked for under its legacy name, if that is another one. */
  lemma LwsLegacyNames(key: OwnerKey, lws: Lws, s: Slice, i: nat)
    requires LwsWants(key, lws).Some?
    ensures var legacy := LwsWants(key, lws).value.legacy;
            && (IsLeaderSlice(key, lws, s) ==>
                  Renames(legacy, s.name, LegacyLWSSliceName(key.name, lws.uid, "leader", -1)))
            && (IsWorkerSlice(key, lws, i, s) ==>
                  Renames(legacy, s.name, LegacyLWSSliceName(key.name, lws.uid, "worker", i)))
  {
    var n := if LwsReplicas(lws) > 0 then LwsReplicas(lws) else 0;
    if IsLeaderSlice(key, lws, s) { LwsRenames(key, lws, n, "leader", -1); }
    if IsWorkerSlice(key, lws, i, s) { LwsRenames(key, lws, n, "worker", i); }
  }

  /** And only a malformed selection keeps it from asking. */
  lemma LwsAsksIff(key: OwnerKey, lws: Lws)
    ensures LwsWants(key, lws).None? <==> lws.selection.LwsMalformed?
  {
  }

  /** The IDs selected for the leader (-1) or a worker group; none for a group that gets no slice. */
  function GroupIds(lws: Lws, group: int): seq<string>
    requires lws.selection.LwsParsed?
  {
    if group == -1 then (if LeaderUsed(lws) then lws.selection.leader else [])
    else if 0 <= group < LwsReplicas(lws) && WorkersUsed(lws) && group < |lws.selection.workers|
    then lws.selection.workers[group]
    else []
  }

  /** The group the slice at position `k` is for. */
  function GroupAt(lws: Lws, k: nat): int { if LeaderUsed(lws) then k - 1 else k }

  /** The slices of a LeaderWorkerSet hold the IDs of its groups, and no group with IDs is left out. */
  lemma LwsPartitions(key: OwnerKey, lws: Lws)
    requires lws.selection.LwsParsed?
    ensures var slices := LwsWants(key, lws).value.slices;
            && (forall k :: 0 <= k < |slices| ==> slices[k].partitions == GroupIds(lws, GroupAt(lws, k)))
            && (forall g :: g >= -1 && GroupIds(lws, g) != [] ==> exists k :: 0 <= k < |slices| && GroupAt(lws, k) == g)
  {
    var n := if LwsReplicas(lws) > 0 then LwsReplicas(lws) else 0;
    LwsShape(key, lws, n);
    var slices := LwsWants(key, lws).value.slices;
    forall k | 0 <= k < |slices| ensures slices[k].partitions == GroupIds(lws, GroupAt(lws, k)) {
      var g := GroupAt(lws, k);
      if g >= 0 && WorkersUsed(lws) { assert k == LwsPosition(lws, g) && g < n; }
    }
    forall g | g >= -1 && GroupIds(lws, g) != [] ensures exists k :: 0 <= k < |slices| && GroupAt(lws, k) == g {
      var k := if g == -1 then 0 else LwsPosition(lws, g);
      assert 0 <= k < |slices| && GroupAt(lws, k) == g;
    }
  }

  /** The slices of a LeaderWorkerSet never share a name. */
  lemma LwsNamesDistinct(key: OwnerKey, lws: Lws, n: nat)
    requires lws.selection.LwsParsed?
    ensures DistinctNames(LwsUpTo(key, lws, n).slices)
  {
    var slices := LwsUpTo(key, lws, n).slices;
    forall i, j | 0 <= i < j < |slices| ensures slices[i].name != slices[j].name {
      LwsPair(key, lws, n, i, j);
    }
  }

  lemma LwsPair(key: OwnerKey, lws: Lws, n: nat, i: nat, j: nat)
    requires lws.selection.LwsParsed? && i < j < |LwsUpTo(key, lws, n).slices|
    ensures LwsUpTo(key, lws, n).slices[i].name != LwsUpTo(key, lws, n).slices[j].name
  {
    LwsShape(key, lws, n);
    var slices := LwsUpTo(key, lws, n).slices;
    var first := LwsPosition(lws, 0);
    var a, b := if i < first then -1 else i - first, j - first;
    var c := if i < first then "leader" else "worker";
    assert slices[j] == slices[LwsPosition(lws, b)];
    assert i >= first ==> slices[i] == slices[LwsPosition(lws, a)];
    LWSSliceNameDecodable(key.name, lws.uid, c, a, key.name, lws.uid, "worker", b);
  }

  // ---- Either owner ----

  datatype OwnerSpec = JobSetSpec(js: JobSet) | LwsSpec(lws: Lws)

  function Wants(key: OwnerKey, spec: OwnerSpec): Option<Wanted>
  {
    match spec case JobSetSpec(js) => JobSetWants(key, js) case LwsSpec(lws) => LwsWants(key, lws)
  }

  /** Desired slices carry their owner's labels and are fresh objects. */
  predicate FreshFor(key: OwnerKey, s: Slice) {
    s.owner == Some(key) && s.conditions == [] && !s.terminating
  }

  lemma WantedAreFresh(key: OwnerKey, spec: OwnerSpec)
    requires Wants(key, spec).Some?
    ensures forall s :: s in Wants(key, spec).value.slices ==> FreshFor(key, s)
  {
    match spec
    case JobSetSpec(_) =>
    case LwsSpec(lws) =>
      LwsAreFresh(key, lws, if LwsReplicas(lws) > 0 then LwsReplicas(lws) else 0);
  }

  lemma {:induction false} LwsAreFresh(key: OwnerKey, lws: Lws, n: nat)
    requires lws.selection.LwsParsed?
    ensures forall s :: s in LwsUpTo(key, lws, n).slices ==> FreshFor(key, s)
  {
    if n > 0 { LwsAreFresh(key, lws, n - 1); }
  }
}
