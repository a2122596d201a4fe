/** The admission webhooks that point pods at their slice (internal/webhook/job.go,
    internal/webhook/lws.go), and their agreement with the controllers on every name. */
module Webhook {
  import opened Base
  import opened Labels
  import opened Text
  import opened Names
  import opened Slices
  import opened Desired

  const SLICE_SELECTOR := "cloud.google.com/gke-tpu-slice"
  const INJECT_LABEL := "tpu-provisioner.cloud.google.com/inject-slice-selector"
  const REPLICATED_JOB_NAME := "jobset.sigs.k8s.io/replicatedjob-name"
  const JOB_INDEX := "jobset.sigs.k8s.io/job-index"
  const LWS_NAME := "leaderworkerset.sigs.k8s.io/name"
  const LWS_GROUP_INDEX := "leaderworkerset.sigs.k8s.io/group-index"

  datatype OwnerRef = OwnerRef(kind: string, uid: Uid)

  /** The answer to an admission request: let the object through as it is, reject it with an HTTP
      status, or let it through with the slice selector set. */
  datatype Response = Allowed | Errored(code: int) | Injected(value: string)

  /** An injection sets the slice selector and keeps all others; anything else leaves the selectors alone. */
  predicate SelectorIsSet(before: Option<map<string, string>>, after: Option<map<string, string>>, r: Response) {
    if r.Injected? then
      var key := "cloud.google.com/gke-tpu-slice";
      && after.Some? && key in after.value && after.value[key] == r.value
      && (forall k :: k in after.value && k != key ==>
            before.Some? && k in before.value && after.value[k] == before.value[k])
      && (before.Some? ==> forall k :: k in before.value ==> k in after.value)
    else after == before
  }

  // ---- Jobs ----

  function LastUid(refs: seq<OwnerRef>, kind: string): (uid: string)
    ensures uid == "" || |uid| >= 8
  {
    if refs == [] then ""
    else if refs[|refs| - 1].kind == kind then refs[|refs| - 1].uid
    else LastUid(refs[..|refs| - 1], kind)
  }

  function JobResponse(labels: Option<map<string, string>>, annotations: Option<map<string, string>>,
                       refs: seq<OwnerRef>): Response {
    if GetIn(labels, INJECT_LABEL) != "true" then Allowed
    else if GetIn(annotations, JOBSET_NAME) == "" || GetIn(annotations, REPLICATED_JOB_NAME) == ""
            || GetIn(annotations, JOB_INDEX) == "" then
      Allowed
    else
      var index := Atoi(GetIn(annotations, JOB_INDEX));
      var uid := LastUid(refs, "JobSet");
      if index.None? then Errored(400)
      else if uid == "" then Allowed
      else Injected(SliceName(GetIn(annotations, JOBSET_NAME), uid, GetIn(annotations, REPLICATED_JOB_NAME),
                              index.value))
  }

  class Job {
    var labels: Option<map<string, string>>
    var annotations: Option<map<string, string>>
    var ownerReferences: seq<OwnerRef>
    var nodeSelector: Option<map<string, string>>

    method Handle() returns (r: Response)
      modifies this`nodeSelector
      ensures r == JobResponse(labels, annotations, ownerReferences)
      ensures SelectorIsSet(old(nodeSelector), nodeSelector, r)
    {
      if labels.None? { return Allowed; }
      if Get(labels.value, INJECT_LABEL) != "true" { return Allowed; }
      if annotations.None? { return Allowed; }
      var jobsetName := Get(annotations.value, JOBSET_NAME);
      if jobsetName == "" { return Allowed; }
      var replicatedJobName := Get(annotations.value, REPLICATED_JOB_NAME);
      if replicatedJobName == "" { return Allowed; }
      var text := Get(annotations.value, JOB_INDEX);
      if text == "" { return Allowed; }
      var index := Atoi(text);
      if index.None? { return Errored(400); }
      var uid: string := "";
      for i := 0 to |ownerReferences|
        invariant uid == LastUid(ownerReferences[..i], "JobSet")
      {
        assert ownerReferences[..i + 1][..i] == ownerReferences[..i];
        if ownerReferences[i].kind == "JobSet" { uid := ownerReferences[i].uid; }
      }
      assert ownerReferences[..|ownerReferences|] == ownerReferences;
      if uid == "" { return Allowed; }
      if nodeSelector.None? { nodeSelector := Some(map[]); }
      var name := SliceName(jobsetName, uid, replicatedJobName, index.value);
      nodeSelector := Some(nodeSelector.value[SLICE_SELECTOR := name]);
      return Injected(name);
    }
  }

  /** The text under a key is there and not empty. */
  predicate Filled(m: Option<map<string, string>>, key: string) {
    m.Some? && key in m.value && m.value[key] != ""
  }

  /** A Job with the label set and all three annotations. */
  predicate JobIsMarked(labels: Option<map<string, string>>, annotations: Option<map<string, string>>) {
    && Filled(labels, "tpu-provisioner.cloud.google.com/inject-slice-selector")
    && labels.value["tpu-provisioner.cloud.google.com/inject-slice-selector"] == "true"
    && Filled(annotations, "jobset.sigs.k8s.io/jobset-name")
    && Filled(annotations, "jobset.sigs.k8s.io/replicatedjob-name")
    && Filled(annotations, "jobset.sigs.k8s.io/job-index")
  }

  predicate IsLast(refs: seq<OwnerRef>, kind: string, ref: OwnerRef) {
    exists k :: 0 <= k < |refs| && refs[k] == ref && ref.kind == kind
                && forall m :: k < m < |refs| ==> refs[m].kind != kind
  }

  predicate IsFirst(refs: seq<OwnerRef>, kind: string, ref: OwnerRef) {
    exists k :: 0 <= k < |refs| && refs[k] == ref && ref.kind == kind
                && forall m :: 0 <= m < k ==> refs[m].kind != kind
  }

  lemma {:induction false} LastUidAt(refs: seq<OwnerRef>, kind: string)
    ensures LastUid(refs, kind) == "" <==> forall ref :: ref in refs ==> ref.kind != kind
    ensures LastUid(refs, kind) != "" ==> exists ref :: IsLast(refs, kind, ref) && ref.uid == LastUid(refs, kind)
  {
    if refs != [] {
      var init, last := refs[..|refs| - 1], refs[|refs| - 1];
      assert refs == init + [last];
      LastUidAt(init, kind);
      if last.kind == kind {
        assert refs[|refs| - 1] == last;
      } else if LastUid(init, kind) != "" {
        var ref :| IsLast(init, kind, ref) && ref.uid == LastUid(init, kind);
        var k :| 0 <= k < |init| && init[k] == ref && forall m :: k < m < |init| ==> init[m].kind != kind;
        assert refs[k] == ref && forall m :: k < m < |refs| ==> refs[m].kind != kind;
        assert IsLast(refs, kind, ref);
      }
    }
  }

  /** What the Job webhook answers, in every case: a marked Job with a number for an index and a JobSet among its
      owners gets the name made of its annotations and the UID of the last such owner; a marked Job with anything
      else for an index is rejected; and every other Job is let through as it is. */
  lemma JobOutcomes(labels: Option<map<string, string>>, annotations: Option<map<string, string>>, refs: seq<OwnerRef>)
    ensures var r := JobResponse(labels, annotations, refs);
            var owned := exists ref :: ref in refs && ref.kind == "JobSet";
            if !JobIsMarked(labels, annotations) then r == Allowed
            else if Atoi(annotations.value["jobset.sigs.k8s.io/job-index"]).None? then r == Errored(400)
            else if !owned then r == Allowed
            else
              var name := annotations.value["jobset.sigs.k8s.io/jobset-name"];
              var job := annotations.value["jobset.sigs.k8s.io/replicatedjob-name"];
              var index := Atoi(annotations.value["jobset.sigs.k8s.io/job-index"]).value;
              exists ref :: IsLast(refs, "JobSet", ref) && r == Injected(SliceName(name, ref.uid, job, index))
  {
    LastUidAt(refs, "JobSet");
  }

  /** The metadata the JobSet controller gives the Job of replica `index` of a replicated job. */
  predicate GeneratedFor(labels: Option<map<string, string>>, annotations: Option<map<string, string>>,
                         refs: seq<OwnerRef>, key: OwnerKey, uid: Uid, x: Slot)
  {
    && GetIn(labels, INJECT_LABEL) == "true"
    && GetIn(annotations, JOBSET_NAME) == key.name && GetIn(annotations, REPLICATED_JOB_NAME) == x.job.name
    && GetIn(annotations, JOB_INDEX) == Dec(x.index)
    && (exists ref :: ref in refs && ref.kind == "JobSet")
    && (forall ref :: ref in refs && ref.kind == "JobSet" ==> ref.uid == uid)
  }

  lemma {:induction false} LastUidIs(refs: seq<OwnerRef>, kind: string, uid: Uid)
    requires exists ref :: ref in refs && ref.kind == kind
    requires forall ref :: ref in refs && ref.kind == kind ==> ref.uid == uid
    ensures LastUid(refs, kind) == uid
  {
    var init, last := refs[..|refs| - 1], refs[|refs| - 1];
    assert refs == init + [last];
    if last.kind != kind { LastUidIs(init, kind, uid); }
  }

  /** `name` is the name of exactly one slice of the list, the one at `k`. */
  ghost predicate OnlyAt(slices: seq<Slice>, name: string, k: nat) {
    k < |slices| && forall m :: 0 <= m < |slices| ==> (slices[m].name == name <==> m == k)
  }

  /** Exactly one slice of the list has this name, and it is `s`. */
  ghost predicate NamesOnly(slices: seq<Slice>, name: string, s: Slice) {
    exists k: nat :: OnlyAt(slices, name, k) && slices[k] == s
  }

  /** The selector injected into the Job of any eligible replicated job and index names exactly one
      desired slice of the JobSet: the one made from that job's cubes at that index. */
  lemma JobWebhookAgrees(labels: Option<map<string, string>>, annotations: Option<map<string, string>>,
                         refs: seq<OwnerRef>, key: OwnerKey, js: JobSet, rj: ReplicatedJob, i: nat)
    requires UidLike(js.uid) && DistinctJobs(js.jobs) && DistinctPrefixes(js.jobs) && JobSetWants(key, js).Some?
    requires rj in js.jobs && Eligible(rj) && i < rj.replicas && i <= MAX_INT64 && key.name != "" && rj.name != ""
    requires GeneratedFor(labels, annotations, refs, key, js.uid, Slot(rj, i))
    ensures var r := JobResponse(labels, annotations, refs);
            var slices := JobSetWants(key, js).value.slices;
            r.Injected? && exists s :: NamesOnly(slices, r.value, s) && IsJobSlice(key, js, rj, i, s)
  {
    var slots, slices := Slots(js.jobs), JobSetWants(key, js).value.slices;
    AtoiOfDec(i);
    LastUidIs(refs, "JobSet", js.uid);
    SlotsComplete(js.jobs, Slot(rj, i));
    var k :| 0 <= k < |slots| && slots[k] == Slot(rj, i);
    JobSetNamesDistinctIff(key, js);
    var name := JobResponse(labels, annotations, refs).value;
    assert slices[k].name == name;
    forall m | 0 <= m < |slices| && slices[m].name == name ensures m == k {}
    assert OnlyAt(slices, name, k);
    SlotIsJobSlice(key, js, slots[k], slices[k]);
    assert NamesOnly(slices, name, slices[k]);
  }

  // ---- StatefulSets of a LeaderWorkerSet ----

  /** One attempt to look a LeaderWorkerSet up, and whether the request is cancelled while waiting
      for the next one. */
  datatype Attempt = FoundLws(uid: Uid) | Absent(cancelled: bool) | ApiError

  const BACKOFFS: nat := 3

  function Try(attempts: seq<Attempt>, i: nat): Attempt {
    if i < |attempts| then attempts[i] else Absent(false)
  }

  /** The outcome of the lookup loop from attempt `i` on: a UID or an HTTP status. */
  datatype Looked = Uid(uid: Uid) | Failed(code: int)

  function LookUid(attempts: seq<Attempt>, i: nat): Looked
    decreases BACKOFFS + 1 - i
  {
    if i > BACKOFFS then Failed(404)
    else match Try(attempts, i)
      case FoundLws(uid) => Looked.Uid(uid)
      case ApiError => Failed(500)
      case Absent(cancelled) => if cancelled && i < BACKOFFS then Failed(500) else LookUid(attempts, i + 1)
  }

  method LookupLoop(attempts: seq<Attempt>) returns (r: Looked)
    ensures r == LookUid(attempts, 0)
  {
    var i := 0;
    while i <= BACKOFFS
      invariant i <= BACKOFFS + 1 && LookUid(attempts, i) == LookUid(attempts, 0)
    {
      var attempt := Try(attempts, i);
      if attempt.FoundLws? { return Looked.Uid(attempt.uid); }
      if attempt.ApiError? { return Failed(500); }
      if i < BACKOFFS && attempt.cancelled { return Failed(500); }
      i := i + 1;
    }
    return Failed(404);
  }

  /** The retry is bounded and exact: a UID is used exactly when one of the first four attempts finds
      the object after only uncancelled misses. */
  lemma {:induction false} LookupIsBounded(attempts: seq<Attempt>, i: nat, uid: Uid)
    requires i <= BACKOFFS + 1
    ensures LookUid(attempts, i) == Looked.Uid(uid) <==>
            exists k :: i <= k <= BACKOFFS && Try(attempts, k) == FoundLws(uid)
                        && forall j :: i <= j < k ==> Try(attempts, j) == Absent(false)
    ensures LookUid(attempts, i) == Failed(404) <==>
            forall j :: i <= j <= BACKOFFS ==>
              Try(attempts, j).Absent? && (Try(attempts, j).cancelled ==> j == BACKOFFS)
    decreases BACKOFFS + 1 - i
  {
    if i <= BACKOFFS { LookupIsBounded(attempts, i + 1, uid); }
  }

  function FirstUid(refs: seq<OwnerRef>, kind: string): (uid: string)
    ensures uid == "" || |uid| >= 8
  {
    if refs == [] then "" else if refs[0].kind == kind then refs[0].uid else FirstUid(refs[1..], kind)
  }

  function StsResponse(labels: Option<map<string, string>>, podLabels: Option<map<string, string>>, refs: seq<OwnerRef>,
                       attempts: seq<Attempt>): Response
  {
    if labels.None? || GetIn(podLabels, INJECT_LABEL) != "true" || GetIn(labels, LWS_NAME) == "" then Allowed
    else
      var name := GetIn(labels, LWS_NAME);
      if LWS_GROUP_INDEX !in labels.value then
        var uid := FirstUid(refs, "LeaderWorkerSet");
        if uid == "" then Allowed else Injected(LWSSliceName(name, uid, "leader", -1))
      else
        var replica := Atoi(labels.value[LWS_GROUP_INDEX]);
        if replica.None? then Errored(400)
        else match LookUid(attempts, 0)
          case Failed(code) => Errored(code)
          case Uid(uid) => Injected(LWSSliceName(name, uid, "worker", replica.value))
  }

  /** A StatefulSet whose pods carry the label and that names its LeaderWorkerSet. */
  predicate StsIsMarked(labels: Option<map<string, string>>, podLabels: Option<map<string, string>>) {
    && Filled(labels, "leaderworkerset.sigs.k8s.io/name")
    && Filled(podLabels, "tpu-provisioner.cloud.google.com/inject-slice-selector")
    && podLabels.value["tpu-provisioner.cloud.google.com/inject-slice-selector"] == "true"
  }

  /** The first `k` of the attempts miss, and none of the waits between them is cut short. */
  predicate MissesFirst(attempts: seq<Attempt>, k: nat) {
    forall j :: 0 <= j < k ==> Try(attempts, j) == Absent(false)
  }

  lemma {:induction false} FirstUidAt(refs: seq<OwnerRef>, kind: string)
    ensures FirstUid(refs, kind) == "" <==> forall ref :: ref in refs ==> ref.kind != kind
    ensures FirstUid(refs, kind) != "" ==> exists ref :: IsFirst(refs, kind, ref) && ref.uid == FirstUid(refs, kind)
  {
    if refs != [] {
      var rest := refs[1..];
      assert refs == [refs[0]] + rest;
      FirstUidAt(rest, kind);
      if refs[0].kind == kind {
        assert IsFirst(refs, kind, refs[0]);
      } else if FirstUid(rest, kind) != "" {
        var ref :| IsFirst(rest, kind, ref) && ref.uid == FirstUid(rest, kind);
        FirstOfRest(refs, kind, ref);
      }
    }
  }

  lemma FirstOfRest(refs: seq<OwnerRef>, kind: string, ref: OwnerRef)
    requires refs != [] && refs[0].kind != kind && IsFirst(refs[1..], kind, ref)
    ensures IsFirst(refs, kind, ref)
  {
    var rest := refs[1..];
    var k :| 0 <= k < |rest| && rest[k] == ref && ref.kind == kind && forall m :: 0 <= m < k ==> rest[m].kind != kind;
    assert refs[k + 1] == ref && forall m :: 0 < m < k + 1 ==> refs[m] == rest[m - 1];
  }

  /** What the StatefulSet webhook answers for the leaders: the name with the UID of the first LeaderWorkerSet
      among the owners, or nothing without such an owner. Unmarked ones are let through as they are. */
  lemma LeaderOutcomes(labels: Option<map<string, string>>, podLabels: Option<map<string, string>>, refs: seq<OwnerRef>,
                       attempts: seq<Attempt>)
    ensures var r := StsResponse(labels, podLabels, refs, attempts);
            var owned := exists ref :: ref in refs && ref.kind == "LeaderWorkerSet";
            && (!StsIsMarked(labels, podLabels) ==> r == Allowed)
            && (StsIsMarked(labels, podLabels) && "leaderworkerset.sigs.k8s.io/group-index" !in labels.value ==>
                  if !owned then r == Allowed
                  else exists ref :: IsFirst(refs, "LeaderWorkerSet", ref)
                                     && r == Injected(LWSSliceName(labels.value["leaderworkerset.sigs.k8s.io/name"],
                                                                   ref.uid, "leader", -1)))
  {
    FirstUidAt(refs, "LeaderWorkerSet");
  }

  /** And for a worker group: a group index that is no number is rejected; the name is injected exactly when one
      of four attempts finds the LeaderWorkerSet after uncancelled misses; four misses give 404; and any other
      end of the lookup gives 500. */
  lemma WorkerOutcomes(labels: Option<map<string, string>>, podLabels: Option<map<string, string>>, refs: seq<OwnerRef>,
                       attempts: seq<Attempt>)
    requires StsIsMarked(labels, podLabels) && "leaderworkerset.sigs.k8s.io/group-index" in labels.value
    ensures var r := StsResponse(labels, podLabels, refs, attempts);
            var index := Atoi(labels.value["leaderworkerset.sigs.k8s.io/group-index"]);
            if index.None? then r == Errored(400)
            else
              && (forall v :: r == Injected(v) <==>
                    exists k, uid: Uid :: 0 <= k < 4 && MissesFirst(attempts, k) && Try(attempts, k) == FoundLws(uid)
                                     && v == LWSSliceName(labels.value["leaderworkerset.sigs.k8s.io/name"], uid,
                                                          "worker", index.value))
              && (r == Errored(404) <==> MissesFirst(attempts, 3) && Try(attempts, 3).Absent?)
              && (r.Injected? || r == Errored(404) || r == Errored(500))
  {
    var looked := LookUid(attempts, 0);
    LookupEnds(attempts, 0);
    forall uid: Uid { LookupIsBounded(attempts, 0, uid); }
    if looked.Uid? {
      var k :| 0 <= k <= BACKOFFS && Try(attempts, k) == FoundLws(looked.uid)
               && forall j :: 0 <= j < k ==> Try(attempts, j) == Absent(false);
      assert MissesFirst(attempts, k);
    }
  }

  lemma {:induction false} LookupEnds(attempts: seq<Attempt>, i: nat)
    requires i <= BACKOFFS + 1
    ensures var looked := LookUid(attempts, i); looked.Failed? ==> looked.code == 404 || looked.code == 500
    decreases BACKOFFS + 1 - i
  {
    if i <= BACKOFFS { LookupEnds(attempts, i + 1); }
  }

  class StatefulSet {
    var labels: Option<map<string, string>>
    var podLabels: Option<map<string, string>>
    var ownerReferences: seq<OwnerRef>
    var nodeSelector: Option<map<string, string>>

    method Handle(attempts: seq<Attempt>) returns (r: Response)
      modifies this`nodeSelector
      ensures r == StsResponse(labels, podLabels, ownerReferences, attempts)
      ensures SelectorIsSet(old(nodeSelector), nodeSelector, r)
    {
      if labels.None? || podLabels.None? { return Allowed; }
      if Get(podLabels.value, INJECT_LABEL) != "true" { return Allowed; }
      var lwsName := Get(labels.value, LWS_NAME);
      if lwsName == "" { return Allowed; }
      var replica := -1;
      var component := "leader";
      if LWS_GROUP_INDEX in labels.value {
        var parsed := Atoi(labels.value[LWS_GROUP_INDEX]);
        if parsed.None? { return Errored(400); }
        replica := parsed.value;
        component := "worker";
      }
      var uid: string := "";
      if component == "leader" {
        ghost var all := ownerReferences;
        assert all[0..] == all;
        var i := 0;
        while i < |ownerReferences| && uid == ""
          invariant i <= |all| && ownerReferences == all
          invariant FirstUid(all, "LeaderWorkerSet") == if uid != "" then uid else FirstUid(all[i..], "LeaderWorkerSet")
          invariant uid == "" || |uid| >= 8
        {
          assert all[i..][1..] == all[i + 1..];
          if ownerReferences[i].kind == "LeaderWorkerSet" { uid := ownerReferences[i].uid; }
          i := i + 1;
        }
      } else {
        var looked := LookupLoop(attempts);
        if looked.Failed? { return Errored(looked.code); }
        uid := looked.uid;
      }
      if uid == "" { return Allowed; }
      if nodeSelector.None? { nodeSelector := Some(map[]); }
      var name := LWSSliceName(lwsName, uid, component, replica);
      nodeSelector := Some(nodeSelector.value[SLICE_SELECTOR := name]);
      return Injected(name);
    }
  }

  lemma {:induction false} FirstUidIs(refs: seq<OwnerRef>, kind: string, uid: Uid)
    requires exists ref :: ref in refs && ref.kind == kind
    requires forall ref :: ref in refs && ref.kind == kind ==> ref.uid == uid
    ensures FirstUid(refs, kind) == uid
  {
    if refs[0].kind == kind {
      assert refs[0] in refs;
    } else {
      FirstUidIs(refs[1..], kind, uid);
    }
  }

  lemma LwsOnlyAt(key: OwnerKey, lws: Lws, k: nat)
    requires LwsWants(key, lws).Some? && k < |LwsWants(key, lws).value.slices|
    ensures var slices := LwsWants(key, lws).value.slices;
            OnlyAt(slices, slices[k].name, k)
  {
    LwsNamesDistinct(key, lws, if LwsReplicas(lws) > 0 then LwsReplicas(lws) else 0);
  }

  /** The selector of the leader StatefulSet names exactly one desired slice, the leader's. */
  lemma LeaderWebhookAgrees(labels: Option<map<string, string>>, podLabels: Option<map<string, string>>,
                            refs: seq<OwnerRef>, attempts: seq<Attempt>, key: OwnerKey, lws: Lws)
    requires LwsWants(key, lws).Some? && lws.leader.Some? && IsTpu7x(Get(lws.leader.value.nodeSelector, ACCELERATOR))
    requires GetIn(podLabels, INJECT_LABEL) == "true" && key.name != "" && GetIn(labels, LWS_NAME) == key.name
    requires labels.Some? && LWS_GROUP_INDEX !in labels.value
    requires exists ref :: ref in refs && ref.kind == "LeaderWorkerSet"
    requires forall ref :: ref in refs && ref.kind == "LeaderWorkerSet" ==> ref.uid == lws.uid
    ensures var r := StsResponse(labels, podLabels, refs, attempts);
            var slices := LwsWants(key, lws).value.slices;
            r.Injected? && exists s :: NamesOnly(slices, r.value, s) && IsLeaderSlice(key, lws, s)
  {
    FirstUidIs(refs, "LeaderWorkerSet", lws.uid);
    LwsShape(key, lws, if LwsReplicas(lws) > 0 then LwsReplicas(lws) else 0);
    LwsOnlyAt(key, lws, 0);
    var slices := LwsWants(key, lws).value.slices;
    assert NamesOnly(slices, slices[0].name, slices[0]);
  }

  /** The selector of a worker StatefulSet names exactly one desired slice, the one of its group, as
      soon as one of the four lookups finds the LeaderWorkerSet. */
  lemma WorkerWebhookAgrees(labels: Option<map<string, string>>, podLabels: Option<map<string, string>>,
                            refs: seq<OwnerRef>, attempts: seq<Attempt>, key: OwnerKey, lws: Lws, i: nat, k: nat)
    requires LwsWants(key, lws).Some? && IsTpu7x(Get(lws.worker.nodeSelector, ACCELERATOR))
    requires i < LwsReplicas(lws) && i <= MAX_INT64
    requires GetIn(podLabels, INJECT_LABEL) == "true" && key.name != "" && GetIn(labels, LWS_NAME) == key.name
    requires labels.Some? && LWS_GROUP_INDEX in labels.value && labels.value[LWS_GROUP_INDEX] == Dec(i)
    requires k <= BACKOFFS && Try(attempts, k) == FoundLws(lws.uid)
    requires forall j :: 0 <= j < k ==> Try(attempts, j) == Absent(false)
    ensures var r := StsResponse(labels, podLabels, refs, attempts);
            var slices := LwsWants(key, lws).value.slices;
            r.Injected? && exists s :: NamesOnly(slices, r.value, s) && IsWorkerSlice(key, lws, i, s)
  {
    AtoiOfDec(i);
    LookupIsBounded(attempts, 0, lws.uid);
    LwsShape(key, lws, LwsReplicas(lws));
    LwsOnlyAt(key, lws, LwsPosition(lws, i));
    var slices := LwsWants(key, lws).value.slices;
    var s := slices[LwsPosition(lws, i)];
    WorkerSliceIs(key, lws, i, s);
    assert NamesOnly(slices, s.name, s);
  }
}
