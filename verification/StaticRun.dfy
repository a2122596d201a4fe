/** Static node pools over whole runs: passes of the static reconciler with changing configurations,
    slices that come and go, and deletes and creates that fail (static_nodepool_controller.go,
    internal/cloud/gke.go). */
module StaticRun {
  import opened Base
  import opened Slices
  import opened NodePools
  import opened Subblocks

  /** What becomes of one delete or create: done, not done and reported so, or done but reported failed. */
  datatype Outcome = Applied | Refused | Unconfirmed

  datatype Item = DeletePool(name: string) | MakePool(desired: DesiredPool)

  type Pools = map<string, Pool>

  /** One worker's call: `DeleteNodePool` for a name, or the existence check and creation of a pool. */
  function Perform(g: Provider, pools: Pools, item: Item, o: Outcome): (Pools, bool) {
    match item
    case DeletePool(n) => if o.Refused? then (pools, false) else (pools - {n}, o.Applied?)
    case MakePool(d) =>
      var built := Build(g, d);
      if built.None? || o.Refused? then (pools, false)
      else if d.name in pools then (pools, o.Applied?)
      else (pools[d.name := built.value], o.Applied?)
  }

  /** What a pass works from: the pools, all slices and the labels of all nodes as it has listed them, and the
      desired pools. */
  datatype Begin = Begin(
    listed: seq<Pool>, desired: seq<DesiredPool>, slices: seq<Slice>, nodes: seq<map<string, string>>)

  function LocksAt(b: Begin): set<string> { Locks(b.slices, b.nodes) }

  predicate HasPlan(g: Provider, b: Begin) { DiffPools(g, b.listed, b.desired).Some? }

  function PlanFor(g: Provider, b: Begin): WorkLists
    requires HasPlan(g, b)
  {
    PlanOf(DiffPools(g, b.listed, b.desired).value, LocksAt(b), PoolIndex(b.listed))
  }

  const CREATES := 3

  /** The four batches of a pass: missing, in ERROR, to be updated, and at last the creates. */
  function Items(plan: WorkLists, stage: nat): seq<Item> {
    if stage == 0 then DeleteItems(plan.missing)
    else if stage == 1 then DeleteItems(plan.error)
    else if stage == 2 then DeleteItems(plan.update)
    else if stage == CREATES then MakeItems(plan.create)
    else []
  }

  function DeleteItems(names: seq<string>): seq<Item> { Map(n => DeletePool(n), names) }

  function MakeItems(desired: seq<DesiredPool>): seq<Item> { Map(d => MakePool(d), desired) }

  /** A pass lists the pools, then the slices, then the nodes, and then works on its batches. */
  datatype Pass =
    | Idle
    | Listed(listed: seq<Pool>, desired: seq<DesiredPool>)
    | Looked(listed: seq<Pool>, desired: seq<DesiredPool>, slices: seq<Slice>)
    | Running(b: Begin, stage: nat, todo: seq<Item>, failed: bool)

  datatype World = World(pools: Pools, slices: seq<Slice>, nodes: seq<map<string, string>>, pass: Pass)

  /** `Attempt(k, o)`: some worker carries out the k-th remaining item of the batch. `Advance`: the batch
      is over. From `Foreign` on the events are not the reconciler's doing. */
  datatype Event =
    | Start(listed: seq<Pool>, desired: seq<DesiredPool>)
    | LookAtSlices
    | LookAtNodes
    | Attempt(k: nat, o: Outcome)
    | Advance
    | Abandon
    | Foreign(pool: Pool)
    | Vanish(name: string)
    | SetError(name: string, error: bool)
    | SliceAppears(slice: Slice)
    | SliceGoes(at: nat)
    | NodeAppears(labels: map<string, string>)
    | NodeGoes(at: nat)

  function Without<T>(s: seq<T>, k: nat): seq<T> { if k < |s| then s[..k] + s[k + 1..] else s }

  function Begun(g: Provider, b: Begin): Pass
    requires HasPlan(g, b)
  {
    Running(b, 0, Items(PlanFor(g, b), 0), false)
  }

  function Do(g: Provider, w: World, e: Event): World {
    match e
    case Start(listed, desired) =>
      if w.pass.Idle? && Lists(w.pools, listed) && DiffPools(g, listed, desired).Some?
      then w.(pass := Listed(listed, desired)) else w
    case LookAtSlices => if w.pass.Listed? then w.(pass := Looked(w.pass.listed, w.pass.desired, w.slices)) else w
    case LookAtNodes =>
      if w.pass.Looked? && DiffPools(g, w.pass.listed, w.pass.desired).Some?
      then w.(pass := Begun(g, Begin(w.pass.listed, w.pass.desired, w.pass.slices, w.nodes))) else w
    case Attempt(k, o) =>
      if w.pass.Running? && k < |w.pass.todo| then
        var (pools, succeeded) := Perform(g, w.pools, w.pass.todo[k], o);
        w.(pools := pools,
           pass := w.pass.(todo := w.pass.todo[..k] + w.pass.todo[k + 1..], failed := w.pass.failed || !succeeded))
      else w
    case Advance =>
      if w.pass.Running? && w.pass.todo == [] && HasPlan(g, w.pass.b) then
        if w.pass.failed || w.pass.stage >= CREATES then w.(pass := Idle)
        else w.(pass := Running(w.pass.b, w.pass.stage + 1, Items(PlanFor(g, w.pass.b), w.pass.stage + 1), false))
      else w
    case Abandon => w.(pass := Idle)
    case Foreign(p) => if p.name in w.pools then w else w.(pools := w.pools[p.name := p])
    case Vanish(n) => w.(pools := w.pools - {n})
    case SetError(n, error) => if n in w.pools then w.(pools := w.pools[n := w.pools[n].(error := error)]) else w
    case SliceAppears(s) => w.(slices := w.slices + [s])
    case SliceGoes(k) => w.(slices := Without(w.slices, k))
    case NodeAppears(labels) => w.(nodes := w.nodes + [labels])
    case NodeGoes(k) => w.(nodes := Without(w.nodes, k))
  }

  function Run(g: Provider, w: World, es: seq<Event>): World
    decreases |es|
  {
    if es == [] then w else Run(g, Do(g, w, es[0]), es[1..])
  }

  /** The listings of a pass that sees the cluster as it is. */
  lemma LooksBegin(g: Provider, w: World, b: Begin)
    requires w.pass.Idle? && w.slices == b.slices && w.nodes == b.nodes && Lists(w.pools, b.listed) && HasPlan(g, b)
    ensures Do(g, Do(g, Do(g, w, Start(b.listed, b.desired)), LookAtSlices), LookAtNodes) == w.(pass := Begun(g, b))
  {
    assert Do(g, w, Start(b.listed, b.desired)) == w.(pass := Listed(b.listed, b.desired));
  }

  // ---- What is assumed ----

  /** Equal hashes come from equal subblocks. */
  ghost predicate Injective(g: Provider) {
    forall l, s, r, l', s', r' :: g.hash(l, s, r) == g.hash(l', s', r') ==> s == s'
  }

  predicate UnhashedKeepsAway(pools: Pools, desired: seq<DesiredPool>) {
    forall n, d :: n in pools && IsStatic(pools[n].labels) && HASH !in pools[n].labels && d in desired ==>
                     (d.subblock == pools[n].subblock ==> d.name == n)
  }

  /** Configurations never repeat a name or a subblock and give an unhashed pool's subblock to no other
      name; pools that others create are not static. */
  predicate Assumed(w: World, e: Event) {
    match e
    case Start(_, desired) =>
      DistinctPoolNames(desired) && DistinctSubblocks(desired) && UnhashedKeepsAway(w.pools, desired)
    case Foreign(p) => !IsStatic(p.labels)
    case _ => true
  }

  predicate RunAssumed(g: Provider, w: World, es: seq<Event>)
    decreases |es|
  {
    es == [] || (Assumed(w, es[0]) && RunAssumed(g, Do(g, w, es[0]), es[1..]))
  }

  // ---- The invariant ----

  predicate Keyed(pools: Pools) { forall n :: n in pools ==> pools[n].name == n }

  predicate StaticPool(pools: Pools, n: string) { n in pools && IsStatic(pools[n].labels) }

  /** No two static pools hold the same subblock. */
  ghost predicate SubblocksExclusive(pools: Pools) {
    forall m, n :: StaticPool(pools, m) && StaticPool(pools, n) && pools[m].subblock == pools[n].subblock ==> m == n
  }

  /** The pool's hash, if it has one, was computed from its subblock. */
  ghost predicate HashIsOurs(g: Provider, p: Pool) {
    HASH in p.labels ==> exists l, r :: p.labels[HASH] == g.hash(l, p.subblock, r)
  }

  ghost predicate Sound(g: Provider, pools: Pools) {
    && Keyed(pools) && SubblocksExclusive(pools)
    && forall n :: StaticPool(pools, n) ==> HashIsOurs(g, pools[n])
  }

  predicate SamePool(p: Pool, q: Pool) { p.subblock == q.subblock && p.labels == q.labels }

  /** Until a pass creates, static pools are among the listed ones, and the desired pools are as assumed. */
  ghost predicate AmongListed(g: Provider, pools: Pools, listed: seq<Pool>, desired: seq<DesiredPool>) {
    && DiffPools(g, listed, desired).Some? && DistinctPoolNames(desired) && DistinctSubblocks(desired)
    && Sound(g, PoolIndex(listed)) && UnhashedKeepsAway(PoolIndex(listed), desired)
    && (forall n :: StaticPool(pools, n) ==> n in PoolIndex(listed) && SamePool(pools[n], PoolIndex(listed)[n]))
  }

  /** While a pass deletes, those already dealt with are gone. */
  ghost predicate Deleting(g: Provider, pools: Pools, pass: Pass)
    requires pass.Running? && HasPlan(g, pass.b)
  {
    && AmongListed(g, pools, pass.b.listed, pass.b.desired)
    && (forall x :: x in pass.todo ==> x.DeletePool?)
    && (!pass.failed ==> forall n :: StaticPool(pools, n) ==> StillDue(PlanFor(g, pass.b), pass.stage, pass.todo, n))
  }

  /** No finished batch was to delete `n`, and the present one still is if it was. */
  predicate StillDue(plan: WorkLists, stage: nat, todo: seq<Item>, n: string) {
    && (stage > 0 ==> n !in plan.missing)
    && (stage > 1 ==> n !in plan.error)
    && (stage > 2 ==> n !in plan.update)
    && (DeletePool(n) in Items(plan, stage) ==> DeletePool(n) in todo)
  }

  predicate NotInTheWay(p: Pool, d: DesiredPool) { d.subblock == p.subblock ==> d.name == p.name }

  /** While a pass creates: no static pool stands in the way of a remaining create under another name. */
  ghost predicate Creating(pools: Pools, desired: seq<DesiredPool>, todo: seq<Item>) {
    && (forall x :: x in todo ==> x.MakePool? && x.desired in desired)
    && (forall n, x :: StaticPool(pools, n) && x in todo && x.MakePool? ==> NotInTheWay(pools[n], x.desired))
  }

  ghost predicate Inv(g: Provider, w: World) {
    && Sound(g, w.pools)
    && (w.pass.Listed? || w.pass.Looked? ==> AmongListed(g, w.pools, w.pass.listed, w.pass.desired))
    && (w.pass.Running? ==>
          && HasPlan(g, w.pass.b) && w.pass.stage <= CREATES
          && (forall x :: x in w.pass.todo ==> x in Items(PlanFor(g, w.pass.b), w.pass.stage))
          && DistinctPoolNames(w.pass.b.desired) && DistinctSubblocks(w.pass.b.desired)
          && (if w.pass.stage < CREATES then Deleting(g, w.pools, w.pass)
              else Creating(w.pools, w.pass.b.desired, w.pass.todo)))
  }

  // ---- Every way a pool can be kept ----

  lemma DesiredIsOne(desired: seq<DesiredPool>, d: DesiredPool, e: DesiredPool)
    requires d in desired && e in desired
    ensures DistinctPoolNames(desired) && d.name == e.name ==> d == e
    ensures DistinctSubblocks(desired) && d.subblock == e.subblock ==> d == e
  {
    var i :| 0 <= i < |desired| && desired[i] == d;
    var j :| 0 <= j < |desired| && desired[j] == e;
  }

  lemma HashTellsSubblock(g: Provider, p: Pool, d: DesiredPool)
    requires Injective(g) && HashIsOurs(g, p) && HASH in p.labels && p.labels[HASH] == HashOf(g, d)
    ensures p.subblock == d.subblock
  {
    var l, r :| p.labels[HASH] == g.hash(l, p.subblock, r);
    var labels := PlainLabels(d);
    var hashed := if IsStatic(labels) then labels - {HASH} else labels;
    assert g.hash(l, p.subblock, r) == g.hash(hashed, d.subblock, d.config.rest);
  }

  /** A listed static pool that no delete list names is on the subblock of no create but its own. */
  lemma KeptIsHarmless(g: Provider, b: Begin, n: string, d: DesiredPool)
    requires Injective(g) && HasPlan(g, b)
    requires DistinctPoolNames(b.desired) && DistinctSubblocks(b.desired)
    requires var listed := PoolIndex(b.listed);
             StaticPool(listed, n) && Sound(g, listed) && UnhashedKeepsAway(listed, b.desired)
    requires var plan := PlanFor(g, b); n !in plan.missing && n !in plan.error && n !in plan.update && d in plan.create
    requires d.subblock == PoolIndex(b.listed)[n].subblock
    ensures d.name == n
  {
    var listed, diff := PoolIndex(b.listed), DiffPools(g, b.listed, b.desired).value;
    DiffMembers(g, b.desired, listed);
    if n !in DesiredNames(b.desired) {
      PoolIndexMembers(b.listed);
      MissingMembers(DesiredNames(b.desired), b.listed);
      assert n in diff.missing && Locked(diff, LocksAt(b), n);
      LockedCapacityIsKept(g, b, n, d);
    } else {
      var e :| e in b.desired && e.name == n;
      KeptUnderItsName(g, b, e, d);
    }
  }

  lemma LockedCapacityIsKept(g: Provider, b: Begin, n: string, d: DesiredPool)
    requires HasPlan(g, b) && d in PlanFor(g, b).create
    requires n in PoolIndex(b.listed) && Locked(DiffPools(g, b.listed, b.desired).value, LocksAt(b), n)
    ensures d.subblock != PoolIndex(b.listed)[n].subblock
  {
    var listed, diff := PoolIndex(b.listed), DiffPools(g, b.listed, b.desired).value;
    assert listed[n].subblock in KeptCapacity(diff, LocksAt(b), listed);
    assert MayCreate(diff, LocksAt(b), listed, d);
  }

  lemma KeptUnderItsName(g: Provider, b: Begin, e: DesiredPool, d: DesiredPool)
    requires Injective(g) && HasPlan(g, b) && e in b.desired
    requires DistinctPoolNames(b.desired) && DistinctSubblocks(b.desired)
    requires var listed := PoolIndex(b.listed);
             StaticPool(listed, e.name) && Sound(g, listed) && UnhashedKeepsAway(listed, b.desired)
    requires var plan := PlanFor(g, b); e.name !in plan.error && e.name !in plan.update && d in plan.create
    requires d.subblock == PoolIndex(b.listed)[e.name].subblock
    ensures d.name == e.name
  {
    var listed, diff := PoolIndex(b.listed), DiffPools(g, b.listed, b.desired).value;
    DiffMembers(g, b.desired, listed);
    match NeedOf(g, e, listed)
    case Fine =>
      if HASH in listed[e.name].labels {
        HashTellsSubblock(g, listed[e.name], e);
        DesiredIsOne(b.desired, d, e);
      }
    case Changed =>
      assert e.name in diff.update && Locked(diff, LocksAt(b), e.name);
      LockedCapacityIsKept(g, b, e.name, d);
    case InError =>
    case Absent =>
  }

  // ---- Every event keeps the invariant ----

  lemma StartKeeps(g: Provider, w: World, listed: seq<Pool>, desired: seq<DesiredPool>)
    requires Inv(g, w) && Assumed(w, Start(listed, desired))
    ensures Inv(g, Do(g, w, Start(listed, desired)))
  {
    if w.pass.Idle? && Lists(w.pools, listed) { ListedIndex(w.pools, listed); }
  }

  lemma LookKeeps(g: Provider, w: World, e: Event)
    requires Inv(g, w) && (e.LookAtSlices? || e.LookAtNodes?)
    ensures Inv(g, Do(g, w, e))
  {
    if e.LookAtNodes? && w.pass.Looked? {
      var b := Begin(w.pass.listed, w.pass.desired, w.pass.slices, w.nodes);
      MakeDeletes(PlanFor(g, b).missing);
    }
  }

  lemma MakeDeletes(names: seq<string>)
    ensures forall x :: x in DeleteItems(names) ==> x.DeletePool?
  {
  }

  lemma ClusterKeeps(g: Provider, w: World, e: Event)
    requires Inv(g, w) && (e.SliceAppears? || e.SliceGoes? || e.NodeAppears? || e.NodeGoes?)
    ensures Inv(g, Do(g, w, e))
  {
    assert Do(g, w, e).pools == w.pools && Do(g, w, e).pass == w.pass;
  }

  lemma RemainingItems(todo: seq<Item>, k: nat)
    requires k < |todo|
    ensures forall x :: x in todo[..k] + todo[k + 1..] ==> x in todo
    ensures forall x :: x in todo && x != todo[k] ==> x in todo[..k] + todo[k + 1..]
  {
    assert todo == todo[..k] + [todo[k]] + todo[k + 1..];
  }

  lemma FewerPoolsStaySound(g: Provider, pools: Pools, n: string)
    requires Sound(g, pools)
    ensures Sound(g, pools - {n})
  {
    forall m | StaticPool(pools - {n}, m) ensures StaticPool(pools, m) {}
  }

  lemma DeleteKeeps(g: Provider, w: World, k: nat, o: Outcome)
    requires Inv(g, w) && w.pass.Running? && w.pass.stage < CREATES && k < |w.pass.todo|
    ensures Inv(g, Do(g, w, Attempt(k, o)))
  {
    var pass, pass' := w.pass, Do(g, w, Attempt(k, o)).pass;
    var pools' := Do(g, w, Attempt(k, o)).pools;
    RemainingItems(pass.todo, k);
    assert pass.todo[k].DeletePool?;
    FewerPoolsStaySound(g, w.pools, pass.todo[k].name);
    forall n | StaticPool(pools', n) && !pass'.failed ensures StillDue(PlanFor(g, pass.b), pass.stage, pass'.todo, n) {
      assert StaticPool(w.pools, n);
      assert StillDue(PlanFor(g, pass.b), pass.stage, pass.todo, n);
    }
  }

  lemma BuiltIsOurs(g: Provider, d: DesiredPool)
    requires Build(g, d).Some?
    ensures var p := Build(g, d).value;
            HashIsOurs(g, p) && p.name == d.name && p.subblock == d.subblock && !p.error
            && HASH in p.labels && p.labels[HASH] == HashOf(g, d)
  {
    var labels := PlainLabels(d);
    assert HashOf(g, d) == g.hash(if IsStatic(labels) then labels - {HASH} else labels, d.subblock, d.config.rest);
  }

  lemma CreatedPoolStaysSound(g: Provider, pools: Pools, desired: seq<DesiredPool>, todo: seq<Item>, d: DesiredPool)
    requires Sound(g, pools) && Creating(pools, desired, todo) && MakePool(d) in todo
    requires DistinctSubblocks(desired) && Build(g, d).Some? && d.name !in pools
    ensures Sound(g, pools[d.name := Build(g, d).value])
    ensures Creating(pools[d.name := Build(g, d).value], desired, todo)
  {
    BuiltIsOurs(g, d);
    var p := Build(g, d).value;
    forall n | StaticPool(pools, n) ensures n != d.name && pools[n].subblock != d.subblock {
      assert NotInTheWay(pools[n], MakePool(d).desired);
    }
    forall y | y in todo && y.MakePool? ensures NotInTheWay(p, y.desired) {
      DesiredIsOne(desired, y.desired, d);
    }
  }

  lemma PerformedCreateStaysSound(g: Provider, pools: Pools, desired: seq<DesiredPool>, todo: seq<Item>, x: Item,
                                  o: Outcome)
    requires Sound(g, pools) && Creating(pools, desired, todo) && x in todo && DistinctSubblocks(desired)
    ensures var pools' := Perform(g, pools, x, o).0; Sound(g, pools') && Creating(pools', desired, todo)
  {
    var d := x.desired;
    if Build(g, d).Some? && d.name !in pools { CreatedPoolStaysSound(g, pools, desired, todo, d); }
  }

  lemma CreateKeeps(g: Provider, w: World, k: nat, o: Outcome)
    requires Inv(g, w) && w.pass.Running? && w.pass.stage == CREATES && k < |w.pass.todo|
    ensures Inv(g, Do(g, w, Attempt(k, o)))
  {
    var todo := w.pass.todo;
    RemainingItems(todo, k);
    assert todo[k] in todo;
    PerformedCreateStaysSound(g, w.pools, w.pass.b.desired, todo, todo[k], o);
  }

  lemma AdvanceKeeps(g: Provider, w: World)
    requires Injective(g) && Inv(g, w)
    ensures Inv(g, Do(g, w, Advance))
  {
    if w.pass.Running? && w.pass.todo == [] && !w.pass.failed && w.pass.stage == CREATES - 1 {
      var b := w.pass.b;
      var plan, diff := PlanFor(g, b), DiffPools(g, b.listed, b.desired).value;
      DiffMembers(g, b.desired, PoolIndex(b.listed));
      forall n | StaticPool(w.pools, n) ensures n !in plan.missing && n !in plan.error && n !in plan.update {
        assert StillDue(plan, 2, [], n);
        NotInBatch(plan, n);
      }
      forall n, x | StaticPool(w.pools, n) && x in Items(plan, CREATES) && x.MakePool?
        ensures NotInTheWay(w.pools[n], x.desired)
      {
        if x.desired.subblock == w.pools[n].subblock { KeptIsHarmless(g, b, n, x.desired); }
      }
    } else if w.pass.Running? && w.pass.todo == [] && !w.pass.failed && w.pass.stage < CREATES {
      var plan := PlanFor(g, w.pass.b);
      forall n | StaticPool(w.pools, n) ensures StillDue(plan, w.pass.stage + 1, Items(plan, w.pass.stage + 1), n) {
        assert StillDue(plan, w.pass.stage, [], n);
        NotInBatch(plan, n);
      }
    }
  }

  lemma NotInBatch(plan: WorkLists, n: string)
    ensures n in plan.missing <==> DeletePool(n) in Items(plan, 0)
    ensures n in plan.error <==> DeletePool(n) in Items(plan, 1)
    ensures n in plan.update <==> DeletePool(n) in Items(plan, 2)
  {
    InMapped(plan.missing, n);
    InMapped(plan.error, n);
    InMapped(plan.update, n);
  }

  lemma InMapped(names: seq<string>, n: string)
    ensures n in names <==> DeletePool(n) in DeleteItems(names)
  {
    if n in names {
      var k :| 0 <= k < |names| && names[k] == n;
      assert DeleteItems(names)[k] == DeletePool(n);
    }
  }

  lemma ForeignKeeps(g: Provider, w: World, p: Pool)
    requires Inv(g, w) && !IsStatic(p.labels)
    ensures Inv(g, Do(g, w, Foreign(p)))
  {
    var w' := Do(g, w, Foreign(p));
    assert forall n :: StaticPool(w'.pools, n) ==> StaticPool(w.pools, n) && w'.pools[n] == w.pools[n];
  }

  lemma VanishKeeps(g: Provider, w: World, m: string)
    requires Inv(g, w)
    ensures Inv(g, Do(g, w, Vanish(m)))
  {
    FewerPoolsStaySound(g, w.pools, m);
    var w' := Do(g, w, Vanish(m));
    assert forall n :: StaticPool(w'.pools, n) ==> StaticPool(w.pools, n) && w'.pools[n] == w.pools[n];
  }

  lemma SetErrorKeeps(g: Provider, w: World, m: string, error: bool)
    requires Inv(g, w)
    ensures Inv(g, Do(g, w, SetError(m, error)))
  {
    if m in w.pools {
      var pools' := w.pools[m := w.pools[m].(error := error)];
      SameSoundness(g, w.pools, pools');
      assert forall n :: n in w.pools ==> SamePool(w.pools[n], pools'[n]) && pools'[n].name == w.pools[n].name;
      SamePoolsKeep(g, w, pools');
    }
  }

  lemma SamePoolsKeep(g: Provider, w: World, pools': Pools)
    requires Inv(g, w) && Sound(g, pools') && pools'.Keys == w.pools.Keys
    requires forall n :: n in w.pools ==> SamePool(w.pools[n], pools'[n]) && pools'[n].name == w.pools[n].name
    requires forall n :: StaticPool(pools', n) <==> StaticPool(w.pools, n)
    ensures Inv(g, w.(pools := pools'))
  {
  }

  lemma SameSoundness(g: Provider, pools: Pools, pools': Pools)
    requires Sound(g, pools) && pools'.Keys == pools.Keys
    requires forall n :: n in pools ==> SamePool(pools[n], pools'[n]) && pools'[n].name == pools[n].name
    ensures Sound(g, pools') && forall n :: StaticPool(pools', n) <==> StaticPool(pools, n)
  {
    assert forall n :: n in pools' <==> n in pools;
    assert forall n :: StaticPool(pools', n) <==> StaticPool(pools, n);
  }

  lemma EveryEventKeeps(g: Provider, w: World, e: Event)
    requires Injective(g) && Inv(g, w) && Assumed(w, e)
    ensures Inv(g, Do(g, w, e))
  {
    match e
    case Start(listed, desired) => StartKeeps(g, w, listed, desired);
    case LookAtSlices => LookKeeps(g, w, e);
    case LookAtNodes => LookKeeps(g, w, e);
    case Attempt(k, o) =>
      if w.pass.Running? && k < |w.pass.todo| {
        if w.pass.stage < CREATES { DeleteKeeps(g, w, k, o); } else { CreateKeeps(g, w, k, o); }
      }
    case Advance => AdvanceKeeps(g, w);
    case Abandon =>
    case Foreign(p) => ForeignKeeps(g, w, p);
    case Vanish(n) => VanishKeeps(g, w, n);
    case SetError(n, error) => SetErrorKeeps(g, w, n, error);
    case _ => ClusterKeeps(g, w, e);
  }

  /** Capacity exclusivity: in every run, however its passes and their deletes and creates fail, no two
      static pools ever hold the same subblock. */
  lemma {:induction false} NoSubblockIsShared(g: Provider, w: World, es: seq<Event>)
    requires Injective(g) && Inv(g, w) && RunAssumed(g, w, es)
    ensures Inv(g, Run(g, w, es)) && SubblocksExclusive(Run(g, w, es).pools)
    decreases |es|
  {
    if es != [] {
      EveryEventKeeps(g, w, es[0]);
      NoSubblockIsShared(g, Do(g, w, es[0]), es[1..]);
    }
  }
}
