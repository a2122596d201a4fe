# TPU provisioner: a verified model

The TPU provisioner is a set of Kubernetes controllers over a shared store. It makes `Slice` objects
for JobSets and LeaderWorkerSets, keeps statically configured node pools, and creates node pools for
pods that cannot be scheduled. This project models that behaviour in Dafny and proves what the
controllers keep in every run. `dafny verify dfyconfig.toml` checks all of it.

## How the model is laid out

* `Text`, `Names`, `Topology`, `Subblocks` hold the text and number formats: decimal printing,
  `strconv.Atoi`, `strings.Split`, slice and node pool names, topologies (with 64-bit wrap-around and
  double-precision rounding), subblock ranges.
* `Slices` and `Desired` hold the comparison of desired with existing slices and the desired slices of
  a JobSet and of a LeaderWorkerSet. The loops of the source are methods, each proved to compute a
  function about which the properties are then proved.
* `Cluster` is the API server and one reconcile pass as a machine of single store operations. Any
  operation can be answered, lost, or applied with its answer lost. `Drain` runs one pass to its end
  against a script of such replies. `Reconcilers` holds the reconcilers as methods on a mutable
  client; each is proved to do exactly what the machine does, for every script.
* `World` interleaves, operation by operation, the passes of all owners with users, other
  controllers, the slice controller and the clock (one pass per owner at a time). `Exclusive`,
  `PassFacts`, `SyncRuns`, `Cleanup`, `Footprint`, `Converge` and `ConvergeOwners` prove what holds in
  those runs.
* `Webhook` holds the two admission webhooks and their agreement with the controllers on names.
* `NodePools` is the comparison of static node pools with their configuration, the pools in use and
  the lock filter. `StaticRun` is the machine of static passes with changing configurations, with pools,
  slices and nodes that come and go between any two steps, and with failing deletes and creates;
  `StaticLocks` says which pools in use such a pass deletes; `StaticPass` is the reconciler itself,
  proved to be a run of that machine.
* `WorkerPool` and `Marks` model the concurrency around the provider, one channel, wait-group or
  `sync.Map` operation at a time, in every interleaving; `Rebuild` joins the marks with the pools.
* `DynamicPool` is the node pool made for a pod and the creation controller that repeats the call.

Beside each definition that a method and the theorems share stands a lemma that says what it means without
it, with label keys, formats and numbers written out: `DiffExactly`, `JobSetSlicesExactly`, `CallOutcomes`
and the like.

## Assumptions

* Lists and reads of a pass show the current store (controller caches can lag behind; see below), and
  no two passes of one owner run at once.
* Nobody but a pass of the owner adds or removes the cleanup finalizer or creates slices carrying the
  owner's labels.
* An object being deleted accepts no new finalizer, and it vanishes when its last finalizer goes. This
  is how the Kubernetes API server behaves; it is not code of this repository.
* Static capacity (`NoSubblockIsShared`): equal hashes come from equal subblocks; no configuration
  repeats a pool name or a subblock; an unhashed static pool holds no subblock desired under another
  name; pools that others create do not carry the static label. `KeptPoolShares` shows why a kept pool
  must not hold another pool's subblock, and `StaticLabelIff` says exactly when a pool made for a pod
  carries the static label.

## Where code and documentation differ

The model follows the code.

* The jitter before a recreation is said to lie between 1 and 3 seconds
  (internal/controller/slice_shared.go:99); it is 1 or 2 seconds.
* The reconciler says it lists static node pools only
  (internal/controller/static_nodepool_controller.go:115); it lists all of them, and a pool that is not
  static but bears a desired name can be deleted as changed or in error.
* The lock that keeps pools in use from being deleted does not hold all of them. It is not applied to pools
  in ERROR state (internal/controller/static_nodepool_controller.go:201-207). It looks only at nodes that
  carry the static label (line 139), which a pool has not if it was made while `nodeLabels` overrode that
  label or by somebody else. And it is computed once, before up to three batches of deletes: a pool that
  comes into use after the listing is deleted all the same (`LateSliceLosesItsPool`). There is no fourth way
  (`DeletedWhileUsed`). `PoolIsDeletedIff` says exactly what a pass plans to delete, given what it has listed.
* The in-flight marks are said to deduplicate requests; because a mark is read and set in two
  operations, two calls can both go ahead (`SeparateLoadAndStoreRace`). `RunIsApartOnIff` says exactly when
  the calls of a run stay apart on a mark, and that suffices for deduplication: two creates of one pool for
  one job take an intrusion on the mark of the name and another on that of the job (`MarksDeduplicate`).
  Marks do not protect a rebuilt pool from a call that compared it before (`BuiltStaysIff`).
* The legacy slice name is not uniquely decodable (`LegacySliceNamesMeetIff` says exactly when two meet).
* Partition exclusivity can fail when two passes check before either creates (`RacingPassesOverlap`).
  `StepIsExclusiveIff` says exactly when an event keeps the slices disjoint and every finished check true;
  a run of such events keeps the slices disjoint.

## Model

| member | source | states |
|---|---|---|
| World.NoSliceIsOrphaned | internal/controller/jobset_slice_controller.go:67-120 | In every run of the passes of all owners, with any operation failing and owners deleted at any moment, an owned slice that is not terminating has an owner that exists and holds the cleanup finalizer |
| World.EventSafe | internal/controller/jobset_slice_controller.go:67-120 | Every single event, whoever causes it, keeps the no-orphan invariant together with what each running pass relies on |
| World.OwnersVanishClean | internal/controller/lws_slice_controller.go:62-116 | When an owner has vanished, every slice it still owns has been asked to go |
| World.DrainIsRun | internal/controller/jobset_slice_controller.go:39-136 | A pass run alone against a script of replies is one of the runs the interleaving theorems speak about |
| World.ReconcileLeavesNoOrphans | internal/controller/jobset_slice_controller.go:39-136 | Wherever a reconcile stops, with any replies, it leaves no orphan |
| Cleanup.CleanUpCompletes | internal/controller/jobset_slice_controller.go:66-93 | When a pass succeeds for an owner that is being deleted, or a JobSet that is finished, all slices of the owner are terminating, it has lost the cleanup finalizer and is gone if it was deleted and held by nobody else, and no other slice or owner has changed |
| Cleanup.CleanUpSucceeds | internal/controller/jobset_slice_controller.go:66-93 | Such a pass succeeds at once when its requests are answered |
| Cleanup.CleanUpInRuns | internal/controller/lws_slice_controller.go:61-85 | In every interleaving: when a clean-up ends well, no slice of its owner is live and the finalizer is given up |
| Cleanup.OtherModesAreLeftAlone | internal/controller/lws_slice_controller.go:87-92 | A pass for a LeaderWorkerSet in another mode than async changes nothing |
| Footprint.ReconcileTouchesOnlyItsOwn | internal/controller/jobset_slice_controller.go:39-136 | A pass that runs alone, however its requests fail, leaves every slice and owner but its own as they were; of its own slices it changes none but by asking it to go, and the slices it adds are its own |
| Footprint.NoPlanNoChange | internal/controller/jobset_slice_controller.go:106-110 | When the desired slices cannot be computed, slices and suspend field stay as they are |
| Exclusive.StepIsExclusiveIff | internal/controller/slice_shared.go:263-297 | From disjoint slices, one event keeps slices disjoint and all checks truthful if and only if it creates on no ID another pass has checked or a slice holds |
| Exclusive.RunsAreExclusive | internal/controller/slice_shared.go:263-297 | Every interleaving of JobSet and LeaderWorkerSet passes with users and failures keeps slices pairwise disjoint as long as no create lands between another pass's check and its create |
| Exclusive.RacingPassesOverlap | internal/controller/slice_shared.go:267-292 | Without that proviso it fails from the very start: with a JobSet and a LeaderWorkerSet, whose controllers do run side by side, no slice and no pass, both passes check before either creates and end up sharing a partition |
| Exclusive.FrozenJobSetPassIsExclusive | internal/controller/jobset_slice_controller.go:199-256 | One JobSet pass keeps slices disjoint even if the partition index is frozen when the pass starts, because repeated IDs are refused |
| Exclusive.JobSetAsksIff | internal/controller/jobset_slice_controller.go:190-260 | A JobSet gets its slices if and only if its selection can be read and the slices made from it would hold no partition twice |
| Exclusive.FrozenLwsPassIsExclusive | internal/controller/lws_slice_controller.go:192-263 | A LeaderWorkerSet selection has no such check; with a frozen index its pass keeps slices disjoint if no ID is selected for two of the groups that get a slice |
| Exclusive.FrozenLwsPassIsExclusiveIff | internal/controller/lws_slice_controller.go:192-263 | And only then, when nothing of it exists yet and nothing blocks it |
| Exclusive.FrozenCreatesDisjointIff | internal/controller/slice_shared.go:263-297 | For any list of new slices that nothing blocks, the frozen creates stay disjoint if and only if the list is pairwise disjoint |
| Exclusive.FrozenLwsPassMayOverlap | internal/controller/lws_slice_controller.go:192-263 | So one LeaderWorkerSet can claim one partition twice |
| Converge.ThreePassesConverge | internal/controller/slice_shared.go:77-114 | At most three failure-free passes bring every desired slice to exist with its desired partitions, under its new or legacy name |
| Converge.RoundShrinks | internal/controller/slice_shared.go:243-300 | The measure: a failure-free pass brings the farthest slice one stage nearer and keeps the hypotheses |
| Converge.StageAfter | internal/controller/slice_shared.go:77-114 | What one pass does to a slice that exists, is absent, has a wrong legacy slice or has a wrong slice of its own name |
| Converge.QuietPass | internal/controller/slice_shared.go:243-300 | The result and the store after a pass whose requests are all answered |
| Converge.ReachedIsStable | internal/controller/slice_shared.go:77-114 | Once the desired slices exist, a pass changes no slice and asks for no wake-up |
| ConvergeOwners.JobSetsConverge | internal/controller/jobset_slice_controller.go:190-260 | For JobSets the hypotheses on names and partitions always hold: a dash-free UID, named jobs and distinct eight-character job prefixes are enough for three passes |
| ConvergeOwners.LwsConverge | internal/controller/lws_slice_controller.go:177-266 | For LeaderWorkerSets it is enough that no two groups share an ID |
| ConvergeOwners.TwoPassesAreNotEnough | internal/controller/slice_shared.go:84-92 | When both names of a desired slice are taken by slices with other partitions, two passes do not reach it |
| ConvergeOwners.SuchAStoreExists | internal/controller/slice_shared.go:84-92 | Every owner with a slice whose legacy name differs has such a start |
| PassFacts.SyncGate | internal/controller/slice_shared.go:203-212 | A successful sync-mode pass run alone leaves the JobSet suspended exactly when for some desired slice the list it started from has no slice with a Ready condition that is True or, with the option on and the slice not terminating, Unknown for reason ACTIVE |
| PassFacts.ReadySlicesRun | internal/controller/jobset_slice_controller.go:264-297 | When every desired slice is listed under its name with a Ready condition that is True, terminating or not, the JobSet ends running |
| PassFacts.UnreadySliceSuspends | internal/controller/jobset_slice_controller.go:264-297 | When one is listed with none but False Ready conditions, it ends suspended |
| SyncRuns.SyncGateInRuns | internal/controller/jobset_slice_controller.go:105-136 | The same at the end of a successful pass in every interleaving in which nobody else changes the JobSet's suspend field |
| PassFacts.CreatesAndRecreatesSuspend | internal/controller/jobset_slice_controller.go:105-129 | So a non-empty create list ends suspended, and so does any matched recreate condition that the unknown-active option does not cover |
| PassFacts.MatchedIsReadyIff | internal/controller/slice_shared.go:116-216 | A slice with a matched recreate condition is ready if and only if the option is on and covers that condition |
| PassFacts.UnknownActiveIsReadyAndMatches | internal/controller/slice_shared.go:203-212 | With the option on, one condition is both ready and a recreate match |
| PassFacts.NothingIsForgotten | internal/controller/jobset_slice_controller.go:112-134 | After a successful pass every planned slice is there or the pass returns after one second, and every waiting slice is seen again at most two seconds after its deadline |
| Slices.DiffSlices | internal/controller/slice_shared.go:77-114 | The loop computes exactly the plan the lemmas below speak about |
| Slices.DiffExact | internal/controller/slice_shared.go:62-114 | Creates are exactly the desired slices found under neither name, deletes exactly the existing slices that stand for a desired one and differ or are past their deadline; no name is in both lists |
| Slices.FailedIsRecreated | internal/controller/slice_shared.go:89-105 | A slice found for a desired one that has its partitions and a Ready condition, False or Unknown, with the reason of a recreate entry and its substring in the message is deleted past the deadline and seen again one second or more ahead and at most two past the deadline before |
| Slices.UnharmedIsKept | internal/controller/slice_shared.go:89-105 | A slice with the desired partitions and no such condition is on no list, and only slices with one are waited for |
| Slices.MatchesExactly | internal/controller/slice_shared.go:116-139 | A recreate entry matches exactly such a condition |
| Slices.ContainsExactly | internal/controller/slice_shared.go:125 | A text contains another exactly when it is that other one between two further texts |
| Slices.ListMembers | internal/controller/slice_shared.go:84-111 | Each desired slice falls in exactly one of create, delete, wait and unchanged, counted and listed |
| Slices.LookupFinds | internal/controller/slice_shared.go:62-72 | The lookup finds the slice of the new name, else the one of the legacy name, else nothing |
| Slices.EarliestIsMinimum | internal/controller/slice_shared.go:302-314 | Folding with zero standing for none gives zero exactly for no delay and otherwise the least delay |
| Slices.WaitingIsNotForgotten | internal/controller/slice_shared.go:94-104 | A wake-up is asked for exactly when a slice waits, at least a second ahead, and when it fires some waiting slice is strictly past its deadline |
| Slices.AllSlicesReady | internal/controller/slice_shared.go:167-192 | The loop decides whether every desired slice is found and ready |
| Slices.AllReadyExactly | internal/controller/slice_shared.go:167-216 | Ready means: for each desired slice the one found has a Ready condition that is True, or Unknown/ACTIVE under the option while it is not terminating |
| Desired.JobSetSlices | internal/controller/jobset_slice_controller.go:190-260 | The nested loops give one slice per replica of each eligible job with its cubes and legacy name, or nothing when some ID occurs twice |
| Desired.JobSetSlicesExactly | internal/controller/jobset_slice_controller.go:201-247 | The desired slices are exactly one for each replica of each job for one of the two accelerators with a topology, with that accelerator and topology and, as partitions, the entry the selection has for that job and index, or none |
| Desired.JobSliceByName | internal/controller/jobset_slice_controller.go:222-246 | With distinct prefixes, the slice of the name of a replica is the slice of that replica |
| Desired.JobSetLegacyNames | internal/controller/jobset_slice_controller.go:222-226 | And its legacy name, where it is another one, is what the slice is also looked for under |
| Desired.SlotsComplete | internal/controller/jobset_slice_controller.go:201-222 | The slots are exactly the eligible jobs' indices below their replica count |
| Desired.JobSetNamesDistinctIff | internal/controller/jobset_slice_controller.go:222-247 | Desired slice names of a JobSet are distinct if and only if no two eligible jobs share their first eight characters |
| Desired.LwsSlices | internal/controller/lws_slice_controller.go:177-266 | The leader slice and one slice per replica group, with their IDs and legacy names |
| Desired.LwsSlicesExactly | internal/controller/lws_slice_controller.go:177-263 | The desired slices are exactly that of the leaders, when there is a leader template for one of the two accelerators, and those of the worker groups, one group by default, with their accelerator, topology and selected partitions |
| Desired.LwsLegacyNames | internal/controller/lws_slice_controller.go:203-207 | Their legacy names, where they are others, are what they are also looked for under |
| Desired.LwsAsksIff | internal/controller/lws_slice_controller.go:177-184 | Only a malformed selection keeps a LeaderWorkerSet from getting its slices |
| Desired.LwsShape | internal/controller/lws_slice_controller.go:192-263 | Which slice stands at which position of the list |
| Desired.LwsNamesDistinct | internal/controller/lws_slice_controller.go:192-263 | Desired slice names of a LeaderWorkerSet are always distinct |
| Reconcilers.Client.ApplySliceChanges | internal/controller/slice_shared.go:243-300 | Performs exactly the deletes, overlap checks and creates of the machine, stopping where it stops |
| Reconcilers.Client.CheckOverlap | internal/controller/slice_shared.go:267-285 | Stops at the first partition some slice holds |
| Reconcilers.Client.HandleSyncMode | internal/controller/jobset_slice_controller.go:264-297 | Suspends or unsuspends on the listed snapshot, as the machine does |
| Reconcilers.Client.CleanUp | internal/controller/jobset_slice_controller.go:66-93 | Deletes all listed slices, then removes the finalizer |
| Reconcilers.Client.ReconcileJobSet | internal/controller/jobset_slice_controller.go:39-136 | The reconciler does exactly what the pass machine does, for every script of replies |
| Reconcilers.Client.ReconcileLws | internal/controller/lws_slice_controller.go:35-124 | The same for LeaderWorkerSets, whose clean-up comes before the mode check |
| Cluster.StepShrinks | internal/controller/jobset_slice_controller.go:39-136 | Every operation brings a pass nearer to its end, so every pass ends |
| Names.SliceNameDecodable | internal/utils/slice.go:8-15 | Two JobSet slice names are equal if and only if the 24-character prefix, the 8-character UID, the 8-character job prefix and the index are |
| Names.LegacySliceNamesMeetIff | internal/utils/slice.go:19-26 | Two legacy names are equal if and only if index and all parts agree, or the job part of one is the UID, a dash and the job part of the other |
| Names.LegacySliceNameDecodable | internal/utils/slice.go:19-26 | So legacy names are decodable as long as no job name has a dash at position eight |
| Names.LegacySliceNameAmbiguous | internal/utils/slice.go:19-26 | And otherwise not: two different slices with one legacy name |
| Names.LwsNameDecodable | internal/utils/slice.go:31-55 | Two LeaderWorkerSet slice names, new or legacy, are equal if and only if prefix, UID, component and replica are |
| Names.KindsNeverMeet | internal/utils/slice.go:8-55 | No JobSet slice name, new or legacy, equals a LeaderWorkerSet one |
| Names.NameLengths | internal/utils/slice.go:5-41 | The 48-character limit holds up to two-digit job replicas and four-digit group indices |
| Names.NameFormats | internal/utils/slice.go:8-55 | The four formats, for names short enough |
| Names.NamesAreCut | internal/utils/slice.go:8-55 | Of longer names the stated number of characters counts |
| Text.DecDigits | internal/utils/slice.go:14 | Indices are printed with the ten digits and no zero in front |
| Text.AtoiOfFmt | internal/utils/slice.go:14 | Printing an index and parsing it again, as controller and webhook do, gives it back |
| Names.SetNodePoolNameInjective | internal/utils/static_nodepools.go:6-11 | Zero-padded pool names keep indices apart |
| Names.SetNodePoolNameFormat | internal/utils/static_nodepools.go:6-11 | Prefix or block, and the index in at least four digits |
| Webhook.Job.Handle | internal/webhook/job.go:44-109 | Answers as the lemmas below say, sets the slice selector exactly when it injects, and keeps every other node selector |
| Webhook.JobOutcomes | internal/webhook/job.go:50-95 | Every case: a marked Job with a numeric index and a JobSet owner gets the name with the UID of the last such owner, a marked Job with another index is rejected, every other Job is let through |
| Webhook.StatefulSet.Handle | internal/webhook/lws.go:31-122 | The same for a StatefulSet, with the lookup of the owner's UID |
| Webhook.LeaderOutcomes | internal/webhook/lws.go:38-76 | The leaders get the name with the UID of the first LeaderWorkerSet among the owners; without one, or unmarked, a StatefulSet is let through |
| Webhook.WorkerOutcomes | internal/webhook/lws.go:56-112 | A worker group gets its name exactly when one of four attempts finds the LeaderWorkerSet after uncancelled misses; four misses give 404, a group index that is no number 400, anything else 500 |
| Webhook.LookupIsBounded | internal/webhook/lws.go:81-101 | The retry uses a UID exactly when one of the first four attempts finds the object after uncancelled misses, and gives up with 404 exactly after four misses |
| Webhook.JobWebhookAgrees | internal/webhook/job.go:71-97 | The injected selector is the name of exactly one desired slice of the JobSet, the one of that job and index |
| Webhook.LeaderWebhookAgrees | internal/webhook/lws.go:56-112 | The leader's selector names exactly one desired slice, the leader's |
| Webhook.WorkerWebhookAgrees | internal/webhook/lws.go:56-112 | A worker group's selector names exactly one desired slice, that group's, once a lookup succeeds |
| NodePools.DiffStaticNodePools | internal/cloud/gke.go:698-764 | The two loops compute exactly the comparison the lemmas speak about, or fail when a desired pool cannot be built |
| NodePools.DiffExactly | internal/cloud/gke.go:714-759 | By the listed pools and the hash a built pool would carry: created are the desired pools that are absent, in ERROR unless recreateOnError is false, or carry another hash; the latter two are on the error and on the update list; missing are the static ones not desired; so a pool of a desired name without a hash is on no list unless in ERROR |
| NodePools.DiffFailsIff | internal/cloud/gke.go:714-723 | There are no lists exactly when some desired pool has too long a name or networks that do not parse |
| NodePools.BuiltPool | internal/cloud/gke.go:872-880 | Name, subblock and labels of a built pool, when it is static, and that a hash label among the configured ones does not change its hash |
| NodePools.MissingMembers | internal/cloud/gke.go:751-759 | Missing are exactly the listed static pools no longer desired |
| NodePools.GetInUseNodepools | internal/controller/static_nodepool_controller.go:278-304 | In use are exactly the pools with a node whose partition label some slice uses, for any order of slices, nodes and labels |
| NodePools.InUseExactly | internal/controller/static_nodepool_controller.go:278-304 | In use are exactly the pools of nodes that carry, under a partition label, a partition of some slice |
| NodePools.PartitionLabels | internal/utils/metadata.go:62-68 | Partition labels are those with the given prefix and suffix and something between |
| NodePools.PlanPass | internal/controller/static_nodepool_controller.go:126-191 | The lock filter, which sees only nodes with the static label, drops exactly the locked deletes, and the creates whose update was skipped or whose subblock a locked pool keeps |
| NodePools.PlanExactly | internal/controller/static_nodepool_controller.go:147-191 | Which deletes and which creates are left, each if and only if |
| NodePools.LockedPoolsSurvive | internal/controller/static_nodepool_controller.go:130-215 | A pool the reconciler takes for being in use is on a delete list if and only if it is desired, in ERROR and to be recreated on error |
| NodePools.PoolIsDeletedIff | internal/controller/static_nodepool_controller.go:130-191 | For the slices and nodes a pass has listed, a pool is on a delete list if and only if it is desired, in ERROR and to be recreated on error, or it is missing or changed and no labelled node shows it in use |
| NodePools.LabelledNodesAreSeen | internal/controller/static_nodepool_controller.go:137-141 | For a pool all of whose nodes carry the label the reconciler sees its use as it is |
| NodePools.UnlabelledPoolInUseIsDeleted | internal/controller/static_nodepool_controller.go:137-141 | A pool in use through a node without the label is deleted when it bears a desired name with another hash |
| StaticRun.NoSubblockIsShared | internal/controller/static_nodepool_controller.go:121-224 | In every run of static passes, with changing configurations and deletes and creates failing in any order, no two static pools hold the same subblock |
| StaticRun.EveryEventKeeps | internal/controller/static_nodepool_controller.go:121-224 | Every single event of such a run keeps the invariant behind it |
| StaticRun.KeptIsHarmless | internal/cloud/gke.go:714-759 | Every way a pool can be kept: one on no delete list is on the subblock of no create but its own |
| StaticLocks.DeletedWhileUsed | internal/controller/static_nodepool_controller.go:130-215 | In every run, with pools, slices and nodes coming and going at any moment, a pool that a pass deletes while a slice uses it was desired and in ERROR, or was used only through nodes without the static label, or has come into use since the pass listed slices and nodes |
| StaticLocks.DeletedWhileUsedBefore | internal/controller/static_nodepool_controller.go:130-215 | If no node comes into use between the listing and the delete, only the first two ways remain |
| StaticLocks.LabelledPoolsAreSafe | internal/controller/static_nodepool_controller.go:137-168 | If moreover all nodes of the pool carry the label, only a pool in ERROR is deleted while in use |
| StaticLocks.LateSliceLosesItsPool | internal/controller/static_nodepool_controller.go:131-207 | The third way happens: a changed pool with labelled nodes and not in ERROR is deleted although a slice that appeared after the listing uses it |
| StaticPass.StaticReconciler.Reconcile | internal/controller/static_nodepool_controller.go:112-224 | The reconciler performs the four batches of the plan in order and stops after the first failed one |
| StaticPass.BatchesInOrder | internal/controller/static_nodepool_controller.go:193-221 | Missing, in ERROR, changed, creates, in this order, up to the first batch with a failure |
| StaticPass.FittingPoolIsLeftAlone | internal/cloud/gke.go:714-759 | Whatever the provider answers, a pass does not touch a pool that fits the desired pool of its name, nor one that is neither desired nor static |
| StaticPass.UnhashedPoolIsLeftAlone | internal/cloud/gke.go:741-743 | In particular a pool of a desired name without a hash and not in ERROR |
| StaticPass.StaticReconciler.DeleteStaticNodePools | internal/cloud/gke.go:1081-1116 | Attempts every delete and reports exactly those that failed, in order |
| StaticPass.StaticReconciler.EnsureStaticNodePools | internal/cloud/gke.go:767-840 | Attempts every create, skipping pools that exist, and reports exactly those that failed, in order |
| StaticPass.PassIsRun | internal/controller/static_nodepool_controller.go:112-224 | Every pass of the reconciler is a run of the machine |
| StaticPass.OnePassConverges | internal/controller/static_nodepool_controller.go:193-224 | One failure-free pass with no locked pool leaves every desired pool built with the desired hash, or as it was where it matched or had no hash, and no other static pool |
| StaticPass.ConvergesAfterAnyRun | internal/controller/static_nodepool_controller.go:193-224 | The same after any run whatever |
| StaticPass.StaticNamesAreTheDesired | internal/cloud/gke.go:714-763 | With the static label kept, the static pool names are then exactly the desired ones |
| StaticPass.ConvergedIsStable | internal/cloud/gke.go:714-763 | The next comparison gives four empty lists and the next pass changes nothing |
| StaticPass.KeptPoolShares | internal/cloud/gke.go:741-747 | A kept pool on the subblock of any desired pool that is built or rebuilt ends up sharing it |
| WorkerPool.EveryMomentIsSafe | internal/cloud/gke.go:770-839 | Under every interleaving at most as many workers run as there are slots, no item is attempted twice, nothing panics and the error channel never blocks |
| WorkerPool.EveryScheduleCompletes | internal/cloud/gke.go:770-839 | Every interleaving ends within 9n + 4 steps, with every item attempted once and one error per failed item |
| WorkerPool.RoomForTheError | internal/cloud/gke.go:771-791 | A worker with an error finds room in the channel, which is not closed yet |
| WorkerPool.DeleteAlwaysCompletes | internal/cloud/gke.go:1081-1116 | Deleting completes for any integer concurrency |
| WorkerPool.DeleteCapacityExactly | internal/cloud/gke.go:1081-1090 | As many workers as there are pools and as the concurrency allows, at least one |
| WorkerPool.EnsureCompletesIff | internal/cloud/gke.go:770-829 | Creating completes under every interleaving if and only if the concurrency is positive, or zero with nothing to create |
| Marks.NoMarkIsLeftBehind | internal/cloud/gke.go:121-138 | With each map operation a step of its own, every mark belongs to a running call, and no mark is left when no call runs, on every exit path |
| Marks.CreateAlone | internal/cloud/gke.go:121-160 | A call alone that finds its pool missing: its operations in order, up to the first mark it finds set, and all marks restored |
| Marks.DeleteAlone | internal/cloud/gke.go:92-110 | The same for one that finds its pool with another hash; one that finds it matching does nothing |
| Marks.StepIsApartOnIff | internal/cloud/gke.go:121-138 | One step, as written, keeps what calls hold and are about to set disjoint on a mark if and only if it does not load that mark while another call has found it unset and not yet stored it |
| Marks.RunIsApartOnIff | internal/cloud/gke.go:121-138 | A whole run keeps its calls apart on a mark throughout if and only if no step of it intrudes on that mark in this way |
| Marks.MarksDeduplicate | internal/cloud/gke.go:97-138 | In every run of the code as written, two creates of one pool in flight take an intrusion on the mark of the name, two creates for one job key one on the mark of the job, and two deletes of one pool one on the mark of the delete; so creates that share name and job take both |
| Marks.AtomicMarksDeduplicate | internal/cloud/gke.go:121-138 | If load and store were one step, no run would have two creates in flight for one pool or one job key, or two deletes of one pool |
| Marks.SeparateLoadAndStoreRace | internal/cloud/gke.go:121-138 | As written, for any pool name and any non-empty job key (a pod without one never gets so far) there is a run in which two calls both pass the mark of the name and that of the job and create one pool |
| Rebuild.BuiltStaysIff | internal/cloud/gke.go:79-160 | A built pool survives every interleaving of calls that want it if and only if no call that compared it earlier is on its way to delete it |
| Rebuild.RebuildCanBeUndone | internal/cloud/gke.go:95-138 | As written, from a state without calls, two calls for one pod that compared the old pool can delete it, have it rebuilt, and be about to delete it again |
| DynamicPool.BuildLabels | internal/cloud/gke.go:343-384 | The node labels follow one precedence rule whatever the order in which the node selector is visited |
| DynamicPool.LayersFollowRule | internal/cloud/gke.go:343-384 | Laying configured labels, annotated labels and node selectors over each other, in this order, amounts to one rule: an admitted node selector wins over a pod label that is named, and that over the label of the provisioner |
| DynamicPool.StaticLabelIff | internal/cloud/gke.go:360-384 | A pool made for a pod bears the static label exactly when the pod selects by it, or carries it as a label to be copied |
| DynamicPool.PoolForIff | internal/cloud/gke.go:330-412 | When a pod gets a pool, in terms of the pod |
| DynamicPool.PoolIsMadeFor | internal/cloud/gke.go:387-437 | Name, machines, number, reservation and spot of that pool |
| DynamicPool.PoolLabels | internal/cloud/gke.go:342-384 | Its labels, by key, the hash apart |
| DynamicPool.CopiedSelectors | internal/cloud/gke.go:371-384 | Which node selectors become labels |
| DynamicPool.TrimExactly | internal/cloud/gke.go:361-362 | Trimming takes white space from both ends and nothing else |
| DynamicPool.DynamicProvisioner.Build | internal/cloud/gke.go:330-549 | The pool wanted for a pod, or an error, in every branch |
| DynamicPool.DynamicProvisioner.EnsureNodePoolForPod | internal/cloud/gke.go:79-160 | Get, compare, then create, delete or nothing, with all marks restored on every exit |
| DynamicPool.DynamicProvisioner.DeleteNodePool | internal/cloud/gke.go:218-246 | A duplicate delete is refused, any other is carried out once and its mark dropped |
| DynamicPool.DynamicProvisioner.Reconcile | internal/controller/creation_controller.go:65-115 | How each lookup and each outcome becomes a requeue, a stopping pool and a late JobSet cache included |
| DynamicPool.CallOutcomes | internal/cloud/gke.go:79-160 | For every state, marks and replies, what becomes of the pools and how the pod is queued again: a pool that matches or has no hash is left alone, one with another hash is deleted and the call comes back at once, a missing one is built, and a call whose pool or job is marked does nothing |
| DynamicPool.TwoCallsSettle | internal/cloud/gke.go:79-160 | One failure-free call settles a pod's pool unless it has another hash; then the first deletes it and asks to come back at once and the second rebuilds it |
| DynamicPool.CallsConverge | internal/cloud/gke.go:79-160 | Any number of calls from the second on leaves exactly that state |
| DynamicPool.SettledStays | internal/cloud/gke.go:277-326 | A settled pool is neither deleted nor created again, whatever fails |
| DynamicPool.NodePoolNames | internal/cloud/gke.go:570-592 | Pool names have at most 40 characters and are equal exactly when the two prefixes are |
| Subblocks.ConstructDesiredNodePools | internal/controller/static_nodepool_controller.go:229-254 | The three loops give the pools of every index of every range, or fail when a range does not parse |
| Subblocks.DesiredPoolsExactly | internal/controller/static_nodepool_controller.go:229-254 | The desired pools are exactly those of the indices of all blocks of all reservations, with their names and subblocks |
| Subblocks.ExpansionFailsIff | internal/controller/static_nodepool_controller.go:233-237 | There is no list exactly when the range of some block does not parse |
| Subblocks.ParsesExactly | internal/cloud/gke.go:843-870 | A range is a number, or two numbers in order with one dash between |
| Subblocks.ParsedRangesAreNatural | internal/cloud/gke.go:843-870 | What parses is a range of natural numbers |
| Subblocks.ParseInvertsPrinting | internal/cloud/gke.go:843-870 | Parsing inverts the zero-padded printing of a range and of a single index |
| Subblocks.ExpansionIsExact | internal/controller/static_nodepool_controller.go:229-254 | As many pools as the ranges have indices, one for each and no other |
| Subblocks.BlockPoolsAreDistinct | internal/controller/static_nodepool_controller.go:239-249 | Names and subblocks are distinct within a block |
| Subblocks.SubblockPathInjective | internal/controller/static_nodepool_controller.go:240-242 | A subblock path tells reservation, block and index when names contain no slash |
| Subblocks.SubblockPathParts | internal/controller/static_nodepool_controller.go:240-242 | The eight parts of a subblock path |
| Subblocks.SubblocksAreDistinct | internal/controller/static_nodepool_controller.go:229-254 | Desired subblocks are distinct when no reservation and block pair is repeated |
| Topology.TpuTopologyToNodeCount | internal/cloud/gke.go:594-620 | The loop computes the wrapped product and its rounded quarter, or an error |
| Topology.NodeCountIff | internal/cloud/gke.go:594-617 | There is a count exactly for the five accelerators with topologies of numbers, three or two as the accelerator demands |
| Text.AtoiExactly | internal/cloud/gke.go:610-614 | A dimension parses exactly when it is digits, after a sign or not, in the 64-bit range |
| Topology.NodeCountIsLeast | internal/cloud/gke.go:594-620 | For positive dimensions of the accelerator's arity with product at most 2^53 the count is the least n with 4n at least the product |
| Topology.NodeCountIsLeastIff | internal/cloud/gke.go:594-620 | For all positive dimensions, the count is that least n if and only if the product fits 64 bits and rounding it to a double leaves it among its four chips |
| Topology.OneChipBeyondIsLost | internal/cloud/gke.go:619 | Between 2^53 and 2^54 chips one node is missing if and only if the product is 1 modulo 4 |
| Topology.OneChipBeyond | internal/cloud/gke.go:610-619 | There is such a topology: 3 x 107 x 28059810762433 is 2^53 + 1 |
| Topology.OverflowAsksForNothing | internal/cloud/gke.go:610-617 | A product of 2^64 wraps to zero nodes |
| Topology.MachineTypeInjective | internal/cloud/gke.go:622-643 | A machine type names one accelerator and one number of chips |
| Topology.MachineTypes | internal/cloud/gke.go:622-643 | The machine type of each accelerator and number of chips |

## Left out

- GKE and Kubernetes clients, operation polling, events, logging, manager wiring and configuration from the environment: input and output, or library code.
- JSON and YAML decoding: the slice selections, reservations and pool configuration enter already decoded, or as malformed.
- Stale caches: passes read the current store; the one staleness modelled is the partition index frozen at the start of a pass.
- Requests that take effect after the pass that sent them has ended: a delete or create is applied before its call returns, or never.
- The node pool hash is an abstract function of the fields it covers, and lower-casing an abstract function on text; the hash is assumed injective only where a lemma says so.
- Most fields of a built node pool (disks, networks, shielded VM options, upgrade settings, taints, placement policy): copied without an interesting invariant.
- The reply that reports a pool in STOPPING state is part of the model, but no property rests on it: it takes a lookup that returns an error together with an object.
- StaticPass.StaticReconciler.DeleteStaticNodePools: carries its items out one after the other; any order of the items is covered by `StaticRun`, the interleaving of the workers by `WorkerPool`.
- StaticPass.StaticReconciler.EnsureStaticNodePools: the same.
- DynamicPool.DynamicProvisioner.EnsureNodePoolForPod: one call at a time, with the marks of other calls as given; the interleaving of calls is the subject of `Marks` and `Rebuild`.
- The existence check and the create of one static pool are one step of its worker, with one outcome.
- Status and reason texts of slice deletions, the count of ready slices in a log line, and the parsing of recreate conditions from flags.
- The deletion controller, the node pool garbage collector, the event filters and the queue's rate limits: short guards around one call.
- Trimming of label keys covers Latin-1 white space only.
- The copied third-party authentication plugin and the Python admission wrapper.
