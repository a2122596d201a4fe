/** Node pools made for pods: the node labels, the get/compare/delete/recreate step of
    `EnsureNodePoolForPod` (internal/cloud/gke.go) and the creation controller that repeats it
    (internal/controller/creation_controller.go). */
module DynamicPool {
  import opened Base
  import opened Labels
  import opened Text
  import opened Topology
  import Names
  import NodePools

  const JOB_KEY := "jobset.sigs.k8s.io/job-key"
  const ICI_RESILIENCY := "cloud.google.com/gke-tpu-ici-resiliency"
  const LOCATION_HINT := "cloud.google.com/gke-location-hint"
  const RESERVATION_NAME := "cloud.google.com/reservation-name"
  const RESERVATION_PROJECT := "cloud.google.com/reservation-project"
  const SPOT := "cloud.google.com/gke-spot"
  const GCP_PREFIX := "cloud.google.com/"
  const GOOGLE_PREFIX := "google.com/"

  /** The controller reference of a pod. */
  datatype Ref = Ref(kind: string, name: string)

  /** A pod: its copy-labels annotation, the sum of its TPU requests if it is a number, and whether its
      additional networks parse. */
  datatype Pod = Pod(
    controller: Option<Ref>, namespace: string, labels: map<string, string>, copyLabels: string,
    nodeSelector: map<string, string>, tpuRequest: Option<int>, networksParse: bool)

  datatype DynPool = DynPool(
    name: string, labels: map<string, string>, machineType: string, reservation: Option<string>, spot: bool,
    nodeCount: int)

  /** The configuration of the provider; `lower` is lower-casing, `hash` the hash of a built pool. */
  datatype Settings = Settings(
    podToNodeLabels: seq<string>, forceOnDemand: bool, lower: string -> string, hash: DynPool -> string)

  // ---- Node labels ----

  predicate IsSpace(c: char) { c in " \t\n\r\U{0B}\U{0C}\U{85}\U{A0}" }

  /** `strings.TrimSpace` on Latin-1 text. */
  function Trim(s: string): string
    decreases |s|
  {
    if s == "" then ""
    else if IsSpace(s[0]) then Trim(s[1..])
    else if IsSpace(s[|s| - 1]) then Trim(s[..|s| - 1])
    else s
  }

  function BaseLabels(g: Settings, pod: Pod, ref: Ref, jobSet: string): map<string, string> {
    map[NodePools.MANAGER := "tpu-provisioner",
        "google.com/tpu-provisioner-parent-kind" := g.lower(ref.kind),
        "google.com/tpu-provisioner-parent-name" := g.lower(ref.name),
        "google.com/tpu-provisioner-parent-namespace" := g.lower(pod.namespace),
        "google.com/tpu-provisioner-jobset-name" := jobSet,
        "google.com/tpu-provisioner-jobset-namespace" := pod.namespace]
  }

  predicate SelectorIsCopied(key: string) {
    key == ICI_RESILIENCY || key == LOCATION_HINT || !(GCP_PREFIX <= key || GOOGLE_PREFIX <= key)
  }

  predicate Annotated(pod: Pod, key: string) {
    key != "" && exists p :: p in Split(pod.copyLabels, ',') && Trim(p) == key
  }

  /** The one rule of precedence: an admitted node selector, else a pod label that the configuration or
      the annotation names, else the provisioner's own label. */
  function LabelRule(g: Settings, pod: Pod, base: map<string, string>, key: string): Option<string> {
    if key in pod.nodeSelector && SelectorIsCopied(key) then Some(pod.nodeSelector[key])
    else if key in pod.labels && (key in g.podToNodeLabels || Annotated(pod, key)) then Some(pod.labels[key])
    else if key in base then Some(base[key])
    else None
  }

  predicate FollowsRule(g: Settings, pod: Pod, base: map<string, string>, labels: map<string, string>) {
    && (forall k :: k in labels ==> LabelRule(g, pod, base, k) == Some(labels[k]))
    && (forall k :: k in pod.nodeSelector.Keys + pod.labels.Keys + base.Keys && LabelRule(g, pod, base, k).Some? ==>
          k in labels)
  }

  function NodeLabels(g: Settings, pod: Pod, base: map<string, string>): (labels: map<string, string>)
    ensures FollowsRule(g, pod, base, labels)
  {
    map k | k in pod.nodeSelector.Keys + pod.labels.Keys + base.Keys && LabelRule(g, pod, base, k).Some?
      :: LabelRule(g, pod, base, k).value
  }

  lemma RuleDetermines(g: Settings, pod: Pod, base: map<string, string>, labels: map<string, string>)
    requires FollowsRule(g, pod, base, labels)
    ensures labels == NodeLabels(g, pod, base)
  {
    var spec := NodeLabels(g, pod, base);
    assert forall k :: k in labels <==> k in spec;
  }

  /** The three copying loops. */
  method BuildLabels(g: Settings, pod: Pod, base: map<string, string>) returns (labels: map<string, string>)
    ensures labels == NodeLabels(g, pod, base)
  {
    labels := CopyConfigured(pod, g.podToNodeLabels, base);
    labels := CopyAnnotated(pod, labels);
    labels := CopySelector(pod.nodeSelector, labels);
    LayersFollowRule(g, pod, base);
    RuleDetermines(g, pod, base, labels);
  }

  /** The pod labels copied for the configuration and for the annotation. */
  function Layers(g: Settings, pod: Pod, base: map<string, string>): map<string, string> {
    base + PodCopies(pod, KeySet(g.podToNodeLabels)) + PodCopies(pod, Trimmed(Split(pod.copyLabels, ',')))
    + SelectorCopies(pod.nodeSelector)
  }

  lemma LayersFollowRule(g: Settings, pod: Pod, base: map<string, string>)
    ensures FollowsRule(g, pod, base, Layers(g, pod, base))
  {
    forall k
      ensures (if k in Layers(g, pod, base) then Some(Layers(g, pod, base)[k]) else None) == LabelRule(g, pod, base, k)
    {
      TrimmedMembers(Split(pod.copyLabels, ','), k);
      LayerAt(g, pod, base, k);
    }
  }

  lemma LayerAt(g: Settings, pod: Pod, base: map<string, string>, k: string)
    requires k in Trimmed(Split(pod.copyLabels, ',')) <==> Annotated(pod, k)
    ensures (if k in Layers(g, pod, base) then Some(Layers(g, pod, base)[k]) else None) == LabelRule(g, pod, base, k)
  {
  }

  method CopyConfigured(pod: Pod, keys: seq<string>, labels0: map<string, string>) returns (labels: map<string, string>)
    ensures labels == labels0 + PodCopies(pod, KeySet(keys))
  {
    labels := labels0;
    for i := 0 to |keys|
      invariant labels == labels0 + PodCopies(pod, KeySet(keys[..i]))
    {
      var key := keys[i];
      assert keys[..i + 1] == keys[..i] + [key];
      assert KeySet(keys[..i + 1]) == KeySet(keys[..i]) + {key};
      CopyOneMore(pod, KeySet(keys[..i]), key, labels0);
      if key in pod.labels { labels := labels[key := pod.labels[key]]; }
    }
    assert keys[..|keys|] == keys;
  }

  method CopyAnnotated(pod: Pod, labels0: map<string, string>) returns (labels: map<string, string>)
    ensures labels == labels0 + PodCopies(pod, Trimmed(Split(pod.copyLabels, ',')))
  {
    labels := labels0;
    var keys := Split(pod.copyLabels, ',');
    for i := 0 to |keys|
      invariant labels == labels0 + PodCopies(pod, Trimmed(keys[..i]))
    {
      var key := Trim(keys[i]);
      assert keys[..i + 1][..i] == keys[..i];
      if key == "" { continue; }
      CopyOneMore(pod, Trimmed(keys[..i]), key, labels0);
      if key in pod.labels { labels := labels[key := pod.labels[key]]; }
    }
    assert keys[..|keys|] == keys;
  }

  lemma CopyOneMore(pod: Pod, keys: set<string>, key: string, labels0: map<string, string>)
    ensures labels0 + PodCopies(pod, keys + {key}) ==
            if key in pod.labels then (labels0 + PodCopies(pod, keys))[key := pod.labels[key]]
            else labels0 + PodCopies(pod, keys)
  {
  }

  function PodCopies(pod: Pod, keys: set<string>): map<string, string> {
    map k | k in keys && k in pod.labels :: pod.labels[k]
  }

  function KeySet(keys: seq<string>): set<string> { set k | k in keys }

  /** The keys a list of parts names once trimmed. */
  function Trimmed(parts: seq<string>): set<string> {
    if parts == [] then {}
    else
      var before, key := Trimmed(parts[..|parts| - 1]), Trim(parts[|parts| - 1]);
      if key == "" then before else before + {key}
  }

  lemma {:induction false} TrimmedMembers(parts: seq<string>, key: string)
    ensures key in Trimmed(parts) <==> key != "" && exists p :: p in parts && Trim(p) == key
  {
    if parts != [] {
      var init, last := parts[..|parts| - 1], parts[|parts| - 1];
      TrimmedMembers(init, key);
      assert forall p :: p in parts <==> p in init || p == last by { assert parts == init + [last]; }
      if Trim(last) == key { assert last in parts; }
    }
  }

  function SelectorCopies(selector: map<string, string>): map<string, string> { Admitted(selector, selector.Keys) }

  function Admitted(selector: map<string, string>, keys: set<string>): map<string, string> {
    map k | k in keys && k in selector && SelectorIsCopied(k) :: selector[k]
  }

  lemma AdmittedOneMore(selector: map<string, string>, keys: set<string>, key: string, labels0: map<string, string>)
    requires key in selector
    ensures labels0 + Admitted(selector, keys + {key}) ==
            if SelectorIsCopied(key) then (labels0 + Admitted(selector, keys))[key := selector[key]]
            else labels0 + Admitted(selector, keys)
  {
  }

  /** The node selector is visited in any order. */
  method CopySelector(selector: map<string, string>, labels0: map<string, string>) returns (labels: map<string, string>)
    ensures labels == labels0 + SelectorCopies(selector)
  {
    labels := labels0;
    var left := selector.Keys;
    while left != {}
      invariant left <= selector.Keys
      invariant labels == labels0 + Admitted(selector, selector.Keys - left)
      decreases left
    {
      var key :| key in left;
      AdmittedOneMore(selector, selector.Keys - left, key, labels0);
      assert selector.Keys - left + {key} == selector.Keys - (left - {key});
      left := left - {key};
      if key == ICI_RESILIENCY || key == LOCATION_HINT {
        labels := labels[key := selector[key]];
      } else if !(GCP_PREFIX <= key) && !(GOOGLE_PREFIX <= key) {
        labels := labels[key := selector[key]];
      }
    }
  }

  // ---- The desired pool ----

  function NodePoolName(jobSet: string, jobKey: string): string
    requires |jobKey| >= 5
  {
    Names.Prefix(jobSet, 34) + "-" + jobKey[..5]
  }

  /** Names stay within the 40 characters GKE allows, and two pods share a pool name exactly when the first
      34 characters of their JobSets and the first 5 of their job keys agree. */
  lemma NodePoolNames(s: string, k: string, s': string, k': string)
    requires |k| >= 5 && |k'| >= 5
    ensures |NodePoolName(s, k)| <= 40
    ensures NodePoolName(s, k) == NodePoolName(s', k') <==>
            Names.Prefix(s, 34) == Names.Prefix(s', 34) && k[..5] == k'[..5]
  {
    if NodePoolName(s, k) == NodePoolName(s', k') {
      Names.SameTails(Names.Prefix(s, 34), k[..5], Names.Prefix(s', 34), k'[..5]);
    }
  }

  function Reservation(g: Settings, pod: Pod): Option<string> {
    if g.forceOnDemand || RESERVATION_NAME !in pod.nodeSelector then None
    else
      var name := pod.nodeSelector[RESERVATION_NAME];
      Some(if RESERVATION_PROJECT in pod.nodeSelector
           then "projects/" + pod.nodeSelector[RESERVATION_PROJECT] + "/reservations/" + name else name)
  }

  /** `nodePoolForPod`. A job key shorter than five characters, which no SHA-1 key is, stops the program
      in the source and is an error here. */
  function PoolFor(g: Settings, pod: Pod): Option<DynPool> {
    if pod.controller.None? || JOBSET_NAME !in pod.labels || pod.labels[JOBSET_NAME] == "" then None
    else if TOPOLOGY !in pod.nodeSelector || ACCELERATOR !in pod.nodeSelector || pod.tpuRequest.None? then None
    else
      var jobSet, accelerator := pod.labels[JOBSET_NAME], pod.nodeSelector[ACCELERATOR];
      var count := NodeCount(accelerator, pod.nodeSelector[TOPOLOGY]);
      var machine := MachineType(accelerator, pod.tpuRequest.value);
      if count.None? || machine.None? || !pod.networksParse then None
      else if JOB_KEY !in pod.labels || |pod.labels[JOB_KEY]| < 5 then None
      else
        var plain := DynPool(
          NodePoolName(jobSet, pod.labels[JOB_KEY]),
          NodeLabels(g, pod, BaseLabels(g, pod, pod.controller.value, jobSet)),
          machine.value, Reservation(g, pod),
          !g.forceOnDemand && SPOT in pod.nodeSelector && pod.nodeSelector[SPOT] == "true", count.value);
        Some(plain.(labels := plain.labels[NodePools.HASH := g.hash(plain)]))
  }

  lemma StaticLabelIsPlain()
    ensures SelectorIsCopied(NodePools.STATIC) && NodePools.STATIC != NodePools.HASH
    ensures forall g, pod, ref, jobSet :: NodePools.STATIC !in BaseLabels(g, pod, ref, jobSet)
  {
    assert NodePools.STATIC[0] == 't' && GCP_PREFIX[0] == 'c' && GOOGLE_PREFIX[0] == 'g';
  }

  /** A pool made for a pod bears the static label, and so falls to the static reconciler, exactly when
      the pod selects nodes by that label or, selecting nothing by it, carries it as a label that the
      configuration or the annotation names. */
  lemma StaticLabelIff(g: Settings, pod: Pod)
    requires PoolFor(g, pod).Some?
    ensures NodePools.IsStatic(PoolFor(g, pod).value.labels) <==>
            if NodePools.STATIC in pod.nodeSelector then pod.nodeSelector[NodePools.STATIC] == "true"
            else NodePools.STATIC in pod.labels && pod.labels[NodePools.STATIC] == "true"
                 && (NodePools.STATIC in g.podToNodeLabels || Annotated(pod, NodePools.STATIC))
  {
    StaticLabelIsPlain();
    var base := BaseLabels(g, pod, pod.controller.value, pod.labels[JOBSET_NAME]);
    var labels := NodeLabels(g, pod, base);
    assert NodePools.STATIC in labels <==> LabelRule(g, pod, base, NodePools.STATIC).Some?;
  }

  /** A pod gets a pool exactly when it is part of a JobSet, selects an accelerator and a topology of its arity,
      asks for TPUs, and its networks and job key are in order. */
  lemma PoolForIff(g: Settings, pod: Pod)
    ensures PoolFor(g, pod).Some? <==>
            && pod.controller.Some?
            && "jobset.sigs.k8s.io/jobset-name" in pod.labels && pod.labels["jobset.sigs.k8s.io/jobset-name"] != ""
            && "cloud.google.com/gke-tpu-topology" in pod.nodeSelector
            && "cloud.google.com/gke-tpu-accelerator" in pod.nodeSelector
            && NodeCount(pod.nodeSelector["cloud.google.com/gke-tpu-accelerator"],
                         pod.nodeSelector["cloud.google.com/gke-tpu-topology"]).Some?
            && pod.tpuRequest.Some? && pod.tpuRequest.value >= 1 && pod.networksParse
            && "jobset.sigs.k8s.io/job-key" in pod.labels && |pod.labels["jobset.sigs.k8s.io/job-key"]| >= 5
  {
  }

  /** What the pool is made of: a name from JobSet and job key, the machines and their number, and, unless the
      provider is told to stay on demand, the reservation named by the pod, in its project if it names one, and
      spot machines if it asks for them. */
  lemma PoolIsMadeFor(g: Settings, pod: Pod)
    requires PoolFor(g, pod).Some?
    ensures var np, selector := PoolFor(g, pod).value, pod.nodeSelector;
            var accelerator := selector["cloud.google.com/gke-tpu-accelerator"];
            && np.name == Names.Prefix(pod.labels["jobset.sigs.k8s.io/jobset-name"], 34) + "-"
                          + pod.labels["jobset.sigs.k8s.io/job-key"][..5]
            && Some(np.machineType) == MachineType(accelerator, pod.tpuRequest.value)
            && Some(np.nodeCount) == NodeCount(accelerator, selector["cloud.google.com/gke-tpu-topology"])
            && (np.spot <==> !g.forceOnDemand && "cloud.google.com/gke-spot" in selector
                             && selector["cloud.google.com/gke-spot"] == "true")
            && (np.reservation.None? <==> g.forceOnDemand || "cloud.google.com/reservation-name" !in selector)
            && (np.reservation.Some? ==>
                  var name := selector["cloud.google.com/reservation-name"];
                  if "cloud.google.com/reservation-project" in selector
                  then np.reservation == Some("projects/" + selector["cloud.google.com/reservation-project"]
                                              + "/reservations/" + name)
                  else np.reservation == Some(name))
            && "google.com/tpu-provisioner-nodepool-hash" in np.labels
            && JobKeyOf(pod) == pod.labels["jobset.sigs.k8s.io/job-key"]
  {
  }

  /** Its labels, the hash apart: the provisioner's own six, overlaid by the rule. */
  lemma PoolLabels(g: Settings, pod: Pod, k: string)
    requires PoolFor(g, pod).Some? && k != "google.com/tpu-provisioner-nodepool-hash"
    ensures var labels := PoolFor(g, pod).value.labels;
            var own := map["google.com/nodepool-manager" := "tpu-provisioner",
                           "google.com/tpu-provisioner-parent-kind" := g.lower(pod.controller.value.kind),
                           "google.com/tpu-provisioner-parent-name" := g.lower(pod.controller.value.name),
                           "google.com/tpu-provisioner-parent-namespace" := g.lower(pod.namespace),
                           "google.com/tpu-provisioner-jobset-name" := pod.labels["jobset.sigs.k8s.io/jobset-name"],
                           "google.com/tpu-provisioner-jobset-namespace" := pod.namespace];
            (if k in labels then Some(labels[k]) else None) == LabelRule(g, pod, own, k)
  {
    var base := BaseLabels(g, pod, pod.controller.value, pod.labels[JOBSET_NAME]);
    assert FollowsRule(g, pod, base, NodeLabels(g, pod, base));
  }

  /** A node selector is copied unless it belongs to Google, two of its keys excepted. */
  lemma CopiedSelectors(key: string)
    ensures SelectorIsCopied(key) <==>
            || key == "cloud.google.com/gke-tpu-ici-resiliency" || key == "cloud.google.com/gke-location-hint"
            || (forall rest :: key != "cloud.google.com/" + rest && key != "google.com/" + rest)
  {
    if GCP_PREFIX <= key { assert key == "cloud.google.com/" + key[|GCP_PREFIX|..]; }
    if GOOGLE_PREFIX <= key { assert key == "google.com/" + key[|GOOGLE_PREFIX|..]; }
  }

  predicate AllSpace(s: string) { forall c :: c in s ==> IsSpace(c) }

  /** Trimming takes white space from both ends, and nothing else. */
  lemma {:induction false} TrimExactly(s: string) returns (before: string, after: string)
    ensures s == before + Trim(s) + after && AllSpace(before) && AllSpace(after)
    ensures var t := Trim(s); t != "" ==> !IsSpace(t[0]) && !IsSpace(t[|t| - 1])
    decreases |s|
  {
    TrimmedEnds(s);
    before, after := "", "";
    if s == "" {
    } else if IsSpace(s[0]) {
      before, after := TrimExactly(s[1..]);
      Joined(s, [s[0]], before, Trim(s[1..]), after, "");
      MoreSpace(before, s[0]);
      before := [s[0]] + before;
    } else if IsSpace(s[|s| - 1]) {
      before, after := TrimExactly(s[..|s| - 1]);
      Joined(s, "", before, Trim(s[..|s| - 1]), after, [s[|s| - 1]]);
      MoreSpace(after, s[|s| - 1]);
      after := after + [s[|s| - 1]];
    }
  }

  lemma {:induction false} TrimmedEnds(s: string)
    ensures var t := Trim(s); t != "" ==> !IsSpace(t[0]) && !IsSpace(t[|t| - 1])
    decreases |s|
  {
    if s == "" {
    } else if IsSpace(s[0]) {
      TrimmedEnds(s[1..]);
    } else if IsSpace(s[|s| - 1]) {
      TrimmedEnds(s[..|s| - 1]);
    }
  }

  lemma MoreSpace(s: string, c: char)
    requires AllSpace(s) && IsSpace(c)
    ensures AllSpace([c] + s) && AllSpace(s + [c])
  {
  }

  lemma Joined(s: string, x: string, before: string, t: string, after: string, y: string)
    requires s == x + (before + t + after) + y
    ensures s == (x + before) + t + (after + y) && "" + before == before && after + "" == after
  {
  }

  /** A pool without a hash is taken for one of an older version and left alone. */
  predicate HashesMatch(desired: DynPool, existing: DynPool) {
    NodePools.HASH in existing.labels ==>
      NodePools.HASH in desired.labels && existing.labels[NodePools.HASH] == desired.labels[NodePools.HASH]
  }

  // ---- Ensuring the pool ----

  type DynPools = map<string, DynPool>

  /** The marks of other calls in flight. */
  datatype InFlight = InFlight(creating: set<string>, creatingJobs: set<string>, deleting: set<string>)

  /** What becomes of one request to the provider: answered, not carried out, or carried out without an
      answer; `Stopping` is an error that comes with an object in STOPPING state. */
  datatype Reply = Answered | Refused | Unconfirmed | Stopping

  function First(script: seq<Reply>): Reply { if script == [] then Answered else script[0] }

  function Rest(script: seq<Reply>): seq<Reply> { if script == [] then [] else script[1..] }

  predicate CarriedOut(r: Reply) { r.Answered? || r.Unconfirmed? }

  datatype Ensured = Satisfied | Duplicate | DeletedToBeRecreated | PoolStopping | EnsureFailed

  datatype After = After(pools: DynPools, result: Ensured, script: seq<Reply>)

  function DeleteStep(pools: DynPools, busy: InFlight, name: string, script: seq<Reply>): After {
    if name in busy.deleting then After(pools, Duplicate, script)
    else
      var o := First(script);
      After(if CarriedOut(o) then pools - {name} else pools,
            if o.Answered? then DeletedToBeRecreated else EnsureFailed, Rest(script))
  }

  function CreateStep(pools: DynPools, busy: InFlight, np: DynPool, jobKey: string, script: seq<Reply>): After {
    if np.name in busy.creating || (jobKey != "" && jobKey in busy.creatingJobs) then After(pools, Duplicate, script)
    else
      var o := First(script);
      After(if CarriedOut(o) then pools[np.name := np] else pools,
            if o.Answered? then Satisfied else EnsureFailed, Rest(script))
  }

  /** Get, compare, and create or delete. */
  function EnsureBuilt(pools: DynPools, busy: InFlight, np: DynPool, jobKey: string, script: seq<Reply>): After {
    if First(script).Stopping? then After(pools, PoolStopping, Rest(script))
    else if !First(script).Answered? then After(pools, EnsureFailed, Rest(script))
    else if np.name !in pools then CreateStep(pools, busy, np, jobKey, Rest(script))
    else if HashesMatch(np, pools[np.name]) then After(pools, Satisfied, Rest(script))
    else DeleteStep(pools, busy, np.name, Rest(script))
  }

  /** `EnsureNodePoolForPod` for a pod whose pool, if it can be built, is `np`. */
  function EnsureFor(pools: DynPools, busy: InFlight, np: Option<DynPool>, jobKey: string, script: seq<Reply>): After {
    if np.None? then After(pools, EnsureFailed, script) else EnsureBuilt(pools, busy, np.value, jobKey, script)
  }

  function JobKeyOf(pod: Pod): string { if JOB_KEY in pod.labels then pod.labels[JOB_KEY] else "" }

  datatype PodLookup = PodFound(pod: Pod) | PodGone | PodError

  datatype JobSetLookup = Found(sliceProvisioning: bool) | Missing | LookupError

  /** What the controller asks of its queue: nothing, the same again after some seconds or at once, or a
      retry with backoff. */
  datatype Requeue = Stop | AfterSeconds(seconds: nat) | AtOnce | Backoff

  function RequeueFor(r: Ensured): Requeue {
    match r
    case Satisfied => Stop
    case Duplicate => Stop
    case PoolStopping => AfterSeconds(5)
    case DeletedToBeRecreated => AtOnce
    case EnsureFailed => Backoff
  }

  class DynamicProvisioner {
    const settings: Settings
    var pools: DynPools
    var creating: set<string>
    var creatingJobs: set<string>
    var deleting: set<string>
    var script: seq<Reply>

    constructor (settings: Settings, pools: DynPools, script: seq<Reply>)
      ensures this.settings == settings && this.pools == pools && this.script == script
      ensures Busy() == InFlight({}, {}, {})
    {
      this.settings, this.pools, this.script := settings, pools, script;
      creating, creatingJobs, deleting := {}, {}, {};
    }

    function Busy(): InFlight
      reads this
    {
      InFlight(creating, creatingJobs, deleting)
    }

    method Build(pod: Pod) returns (np: Option<DynPool>)
      ensures np == PoolFor(settings, pod)
    {
      if pod.controller.None? { return None; }
      if JOBSET_NAME !in pod.labels || pod.labels[JOBSET_NAME] == "" { return None; }
      var jobSet := pod.labels[JOBSET_NAME];
      var labels := BuildLabels(settings, pod, BaseLabels(settings, pod, pod.controller.value, jobSet));
      if TOPOLOGY !in pod.nodeSelector || ACCELERATOR !in pod.nodeSelector || pod.tpuRequest.None? { return None; }
      var accelerator := pod.nodeSelector[ACCELERATOR];
      var count := TpuTopologyToNodeCount(accelerator, pod.nodeSelector[TOPOLOGY]);
      if count.None? { return None; }
      var machine := MachineType(accelerator, pod.tpuRequest.value);
      if machine.None? || !pod.networksParse { return None; }
      if JOB_KEY !in pod.labels || |pod.labels[JOB_KEY]| < 5 { return None; }
      var spot := !settings.forceOnDemand && SPOT in pod.nodeSelector && pod.nodeSelector[SPOT] == "true";
      var plain := DynPool(NodePoolName(jobSet, pod.labels[JOB_KEY]), labels, machine.value,
                           Reservation(settings, pod), spot, count.value);
      return Some(plain.(labels := labels[NodePools.HASH := settings.hash(plain)]));
    }

    method DeleteNodePool(name: string) returns (r: Ensured)
      modifies this
      ensures After(pools, r, script) == DeleteStep(old(pools), old(Busy()), name, old(script))
      ensures Busy() == old(Busy())
    {
      if name in deleting { return Duplicate; }
      ghost var before := deleting;
      deleting := deleting + {name};
      var o := First(script);
      script := Rest(script);
      if CarriedOut(o) { pools := pools - {name}; }
      deleting := deleting - {name};
      assert deleting == before;
      return if o.Answered? then DeletedToBeRecreated else EnsureFailed;
    }

    method Create(np: DynPool, jobKey: string) returns (r: Ensured)
      modifies this
      ensures After(pools, r, script) == CreateStep(old(pools), old(Busy()), np, jobKey, old(script))
      ensures Busy() == old(Busy())
    {
      if np.name in creating { return Duplicate; }
      ghost var names, jobs := creating, creatingJobs;
      creating := creating + {np.name};
      if jobKey != "" {
        if jobKey in creatingJobs {
          creating := creating - {np.name};
          assert creating == names;
          return Duplicate;
        }
        creatingJobs := creatingJobs + {jobKey};
      }
      var o := First(script);
      script := Rest(script);
      if CarriedOut(o) { pools := pools[np.name := np]; }
      if jobKey != "" { creatingJobs := creatingJobs - {jobKey}; }
      creating := creating - {np.name};
      assert creating == names && creatingJobs == jobs;
      return if o.Answered? then Satisfied else EnsureFailed;
    }

    method EnsureNodePoolForPod(pod: Pod) returns (r: Ensured)
      modifies this
      ensures After(pools, r, script) ==
              EnsureFor(old(pools), old(Busy()), PoolFor(settings, pod), JobKeyOf(pod), old(script))
      ensures Busy() == old(Busy())
    {
      var np := Build(pod);
      if np.None? { return EnsureFailed; }
      var o := First(script);
      script := Rest(script);
      if o.Stopping? { return PoolStopping; }
      if !o.Answered? { return EnsureFailed; }
      if np.value.name !in pools {
        r := Create(np.value, JobKeyOf(pod));
      } else if HashesMatch(np.value, pools[np.value.name]) {
        r := Satisfied;
      } else {
        r := DeleteNodePool(np.value.name);
      }
    }

    /** The creation controller's reconcile. A JobSet that is missing may only be late in the cache. */
    method Reconcile(pod: PodLookup, jobSet: JobSetLookup) returns (r: Requeue)
      modifies this
      ensures Busy() == old(Busy())
      ensures pod.PodGone? ==> r == Stop
      ensures pod.PodError? ==> r == Backoff
      ensures pod.PodFound? && jobSet.Missing? ==> r == AfterSeconds(3)
      ensures pod.PodFound? && jobSet.LookupError? ==> r == Backoff
      ensures pod.PodFound? && jobSet.Found? && jobSet.sliceProvisioning ==> r == Stop
      ensures if pod.PodFound? && jobSet.Found? && !jobSet.sliceProvisioning
              then var wanted := PoolFor(settings, pod.pod);
                   var e := EnsureFor(old(pools), old(Busy()), wanted, JobKeyOf(pod.pod), old(script));
                   pools == e.pools && script == e.script && r == RequeueFor(e.result)
              else pools == old(pools) && script == old(script)
    {
      match pod {
        case PodGone => return Stop;
        case PodError => return Backoff;
        case PodFound(p) =>
          match jobSet {
            case Missing => return AfterSeconds(3);
            case LookupError => return Backoff;
            case Found(sliceProvisioning) =>
              if sliceProvisioning { return Stop; }
              var e := EnsureNodePoolForPod(p);
              r := RequeueFor(e);
          }
      }
    }
  }

  // ---- What one call does, without its steps ----

  /** The lookup tells the two pools apart: both carry a hash, and not the same. */
  predicate HashesDiffer(np: DynPool, existing: DynPool) {
    var hash := "google.com/tpu-provisioner-nodepool-hash";
    hash in np.labels && hash in existing.labels && np.labels[hash] != existing.labels[hash]
  }

  /** One call and its requeue, for every state and every reply. If the lookup fails the call backs off, or comes
      back after five seconds if the pool is stopping. A pool that matches or carries no hash is left alone. A pool
      with another hash is deleted and the call comes back at once, and a missing pool is built, unless a call for
      the same pool or job is in flight. */
  lemma CallOutcomes(pools: DynPools, busy: InFlight, np: DynPool, jobKey: string, script: seq<Reply>)
    requires "google.com/tpu-provisioner-nodepool-hash" in np.labels
    ensures var e := EnsureFor(pools, busy, Some(np), jobKey, script);
            var lookup, request := First(script), First(Rest(script));
            var requeue := RequeueFor(e.result);
            var built, deleted := pools[np.name := np], pools - {np.name};
            match lookup
            case Stopping => e.pools == pools && requeue == AfterSeconds(5)
            case Refused => e.pools == pools && requeue == Backoff
            case Unconfirmed => e.pools == pools && requeue == Backoff
            case Answered =>
              if np.name in pools && !HashesDiffer(np, pools[np.name]) then e.pools == pools && requeue == Stop
              else if np.name in pools && np.name in busy.deleting then e.pools == pools && requeue == Stop
              else if np.name !in pools && (np.name in busy.creating || (jobKey != "" && jobKey in busy.creatingJobs))
              then e.pools == pools && requeue == Stop
              else match request
                case Answered =>
                  if np.name in pools then e.pools == deleted && requeue == AtOnce
                  else e.pools == built && requeue == Stop
                case Unconfirmed => e.pools == (if np.name in pools then deleted else built) && requeue == Backoff
                case _ => e.pools == pools && requeue == Backoff
  {
  }

  // ---- Convergence ----

  const NOBODY := InFlight({}, {}, {})

  /** The pool exists and will be left alone. */
  predicate Settled(pools: DynPools, np: DynPool) { np.name in pools && HashesMatch(np, pools[np.name]) }

  /** `n` calls for one pod, without failures and with no other call in flight. */
  function Calls(pools: DynPools, np: DynPool, jobKey: string, n: nat): DynPools {
    if n == 0 then pools else EnsureFor(Calls(pools, np, jobKey, n - 1), NOBODY, Some(np), jobKey, []).pools
  }

  /** Once settled, a call neither creates nor deletes, whoever else is at work and whatever fails. */
  lemma SettledStays(pools: DynPools, busy: InFlight, np: DynPool, jobKey: string, script: seq<Reply>)
    requires Settled(pools, np)
    ensures EnsureBuilt(pools, busy, np, jobKey, script).pools == pools
    ensures RequeueFor(EnsureBuilt(pools, busy, np, jobKey, script).result) == Stop <==> First(script).Answered?
  {
  }

  /** From any pools, one call settles the pool unless it exists with another hash; then the first call
      deletes it and asks to come back at once, and the second builds it anew. Other pools are not
      touched, and a pool that matches or has no hash stays as it is. */
  lemma TwoCallsSettle(pools: DynPools, np: DynPool, jobKey: string)
    ensures var once := EnsureBuilt(pools, NOBODY, np, jobKey, []);
            var twice := EnsureBuilt(once.pools, NOBODY, np, jobKey, []);
            && Settled(twice.pools, np)
            && twice.pools == (if Settled(pools, np) then pools else pools[np.name := np])
            && (if np.name in pools && !Settled(pools, np)
                then RequeueFor(once.result) == AtOnce && once.pools == pools - {np.name}
                else RequeueFor(once.result) == Stop && once.pools == twice.pools)
  {
    var once := EnsureBuilt(pools, NOBODY, np, jobKey, []).pools;
    if np.name in pools && !Settled(pools, np) {
      assert once[np.name := np] == pools[np.name := np];
    } else {
      SettledStays(once, NOBODY, np, jobKey, []);
    }
  }

  /** For a fixed pod, any number of failure-free calls from the second on leaves exactly its pool built
      as desired, or as it was where it matched or had no hash, and every other pool as it was. */
  lemma {:induction false} CallsConverge(pools: DynPools, np: DynPool, jobKey: string, n: nat)
    requires n >= 2
    ensures Settled(Calls(pools, np, jobKey, n), np)
    ensures Calls(pools, np, jobKey, n) == (if Settled(pools, np) then pools else pools[np.name := np])
  {
    if n == 2 {
      assert Calls(pools, np, jobKey, 0) == pools;
      assert Calls(pools, np, jobKey, 1) == EnsureBuilt(pools, NOBODY, np, jobKey, []).pools;
      TwoCallsSettle(pools, np, jobKey);
    } else {
      CallsConverge(pools, np, jobKey, n - 1);
      SettledStays(Calls(pools, np, jobKey, n - 1), NOBODY, np, jobKey, []);
    }
  }
}
