/** Slices and the comparison of desired with existing slices (internal/controller/slice_shared.go). */
module Slices {
  import opened Base

  datatype OwnerKind = JobSetKind | LwsKind

  /** The three ownership labels of a slice. */
  datatype OwnerKey = OwnerKey(kind: OwnerKind, namespace: string, name: string)

  datatype Status = StatusTrue | StatusFalse | StatusUnknown

  datatype Condition = Condition(kind: string, status: Status, reason: string, message: string)

  datatype Slice = Slice(
    name: string, owner: Option<OwnerKey>, accelerator: string, topology: string, partitions: seq<string>,
    conditions: seq<Condition>, created: int, terminating: bool)

  datatype RecreateCondition = RecreateCondition(reason: string, substring: string)

  /** What a pass is given besides the objects: the clock, the recreate options, the random draws
      behind the jitter and the ready option. Times are nanoseconds. */
  datatype Policy = Policy(
    now: int, recreate: seq<RecreateCondition>, wait: int, draws: seq<bool>, unknownActiveIsReady: bool)

  const SECOND: int := 1_000_000_000

  const READY := "Ready"

  function Jitter(p: Policy, k: nat): (j: int)
    ensures j == SECOND || j == 2 * SECOND
  {
    if k < |p.draws| && p.draws[k] then 2 * SECOND else SECOND
  }

  /** `strings.Contains` */
  predicate Contains(s: string, sub: string) {
    sub <= s || (s != "" && Contains(s[1..], sub))
  }

  predicate ConditionMatches(c: Condition, r: RecreateCondition) {
    c.reason == r.reason && (r.substring == "" || Contains(c.message, r.substring))
  }

  predicate RecreationMatches(s: Slice, recreate: seq<RecreateCondition>) {
    exists c :: c in s.conditions && c.kind == READY && (c.status.StatusFalse? || c.status.StatusUnknown?)
                && exists r :: r in recreate && ConditionMatches(c, r)
  }

  predicate IsSliceReady(s: Slice, unknownActiveIsReady: bool) {
    exists c :: c in s.conditions && c.kind == READY
                && (c.status.StatusTrue?
                    || (unknownActiveIsReady && !s.terminating && c.status.StatusUnknown? && c.reason == "ACTIVE"))
  }

  /** The minimum of two durations, zero standing for none. */
  function MinDuration(a: int, b: int): int {
    if a == 0 then b else if b == 0 then a else if a < b then a else b
  }

  predicate DistinctNames(ss: seq<Slice>) {
    forall i, j :: 0 <= i < j < |ss| ==> ss[i].name != ss[j].name
  }

  /** The lookup map of a list; a later slice of the same name wins. */
  function Index(existing: seq<Slice>): map<string, Slice> {
    if existing == [] then map[]
    else Index(existing[..|existing| - 1])[existing[|existing| - 1].name := existing[|existing| - 1]]
  }

  lemma {:induction false} IndexIsExisting(existing: seq<Slice>)
    ensures forall n :: n in Index(existing) ==> Index(existing)[n] in existing && Index(existing)[n].name == n
    ensures forall s :: s in existing ==> s.name in Index(existing)
    ensures DistinctNames(existing) ==> forall s :: s in existing ==> Index(existing)[s.name] == s
  {
    if existing != [] {
      IndexIsExisting(existing[..|existing| - 1]);
    }
  }

  function Lookup(name: string, index: map<string, Slice>, legacy: map<string, string>): Option<Slice> {
    if name in index then Some(index[name])
    else if name in legacy && legacy[name] in index then Some(index[legacy[name]])
    else None
  }

  /** What becomes of one desired slice. */
  datatype Verdict = Missing | Replace(existing: Slice) | Await(existing: Slice, deadline: int) | Keep(existing: Slice)

  function Judge(d: Slice, index: map<string, Slice>, legacy: map<string, string>, p: Policy): Verdict {
    match Lookup(d.name, index, legacy)
    case None => Missing
    case Some(s) =>
      if s.partitions != d.partitions then Replace(s)
      else if RecreationMatches(s, p.recreate) then
        if s.created + p.wait < p.now then Replace(s) else Await(s, s.created + p.wait)
      else Keep(s)
  }

  /** The lists `diffSlices` has built after its first `n` desired slices. */
  function Deletes(desired: seq<Slice>, index: map<string, Slice>, legacy: map<string, string>, p: Policy,
                   n: nat): seq<Slice>
    requires n <= |desired|
  {
    if n == 0 then []
    else
      var before := Deletes(desired, index, legacy, p, n - 1);
      var v := Judge(desired[n - 1], index, legacy, p);
      if v.Replace? then before + [v.existing] else before
  }

  function Creates(desired: seq<Slice>, index: map<string, Slice>, legacy: map<string, string>, n: nat): seq<Slice>
    requires n <= |desired|
  {
    if n == 0 then []
    else
      var before := Creates(desired, index, legacy, n - 1);
      if Lookup(desired[n - 1].name, index, legacy).None? then before + [desired[n - 1]] else before
  }

  function Delays(desired: seq<Slice>, index: map<string, Slice>, legacy: map<string, string>, p: Policy,
                  n: nat): seq<int>
    requires n <= |desired|
  {
    if n == 0 then []
    else
      var before := Delays(desired, index, legacy, p, n - 1);
      var v := Judge(desired[n - 1], index, legacy, p);
      if v.Await? then before + [v.deadline - p.now + Jitter(p, n - 1)] else before
  }

  /** The fold of `minDuration` over a list, from zero. */
  function Earliest(delays: seq<int>): int {
    if delays == [] then 0 else MinDuration(Earliest(delays[..|delays| - 1]), delays[|delays| - 1])
  }

  datatype Plan = Plan(toDelete: seq<Slice>, toCreate: seq<Slice>, requeueAfter: int)

  function Diff(desired: seq<Slice>, existing: seq<Slice>, legacy: map<string, string>, p: Policy): Plan {
    var index := Index(existing);
    Plan(Deletes(desired, index, legacy, p, |desired|), Creates(desired, index, legacy, |desired|),
         Earliest(Delays(desired, index, legacy, p, |desired|)))
  }

  method BuildIndex(existing: seq<Slice>) returns (index: map<string, Slice>)
    ensures index == Index(existing)
  {
    index := map[];
    for i := 0 to |existing|
      invariant index == Index(existing[..i])
    {
      assert existing[..i + 1][..i] == existing[..i];
      index := index[existing[i].name := existing[i]];
    }
    assert existing[..|existing|] == existing;
  }

  method DiffSlices(desired: seq<Slice>, existing: seq<Slice>, legacy: map<string, string>, p: Policy)
    returns (toDelete: seq<Slice>, toCreate: seq<Slice>, requeueAfter: int)
    ensures Plan(toDelete, toCreate, requeueAfter) == Diff(desired, existing, legacy, p)
  {
    var index := BuildIndex(existing);
    toDelete, toCreate, requeueAfter := [], [], 0;
    for i := 0 to |desired|
      invariant toDelete == Deletes(desired, index, legacy, p, i)
      invariant toCreate == Creates(desired, index, legacy, i)
      invariant requeueAfter == Earliest(Delays(desired, index, legacy, p, i))
    {
      var d := desired[i];
      var found := Lookup(d.name, index, legacy);
      if found.Some? {
        var s := found.value;
        if s.partitions != d.partitions {
          toDelete := toDelete + [s];
          continue;
        }
        if RecreationMatches(s, p.recreate) {
          if s.created + p.wait < p.now {
            toDelete := toDelete + [s];
          } else {
            ghost var before := Delays(desired, index, legacy, p, i);
            var delay := s.created + p.wait - p.now + Jitter(p, i);
            requeueAfter := MinDuration(requeueAfter, delay);
            assert Delays(desired, index, legacy, p, i + 1) == before + [delay];
            assert (before + [delay])[..|before|] == before;
          }
          continue;
        }
      } else {
        toCreate := toCreate + [d];
      }
    }
  }

  method AllSlicesReady(desired: seq<Slice>, existing: seq<Slice>, legacy: map<string, string>,
                        unknownActiveIsReady: bool)
    returns (ready: bool)
    ensures ready <==> AllReady(desired, existing, legacy, unknownActiveIsReady)
  {
    if |desired| == 0 { return true; }
    var index := BuildIndex(existing);
    for i := 0 to |desired|
      invariant forall k :: 0 <= k < i ==> ReadyIn(desired[k], existing, legacy, unknownActiveIsReady)
    {
      var found := Lookup(desired[i].name, index, legacy);
      assert desired[i] in desired;
      if found.None? { return false; }
      if !IsSliceReady(found.value, unknownActiveIsReady) { return false; }
    }
    return true;
  }

  predicate ReadyIn(d: Slice, existing: seq<Slice>, legacy: map<string, string>, unknownActiveIsReady: bool) {
    var found := Lookup(d.name, Index(existing), legacy);
    found.Some? && IsSliceReady(found.value, unknownActiveIsReady)
  }

  predicate AllReady(desired: seq<Slice>, existing: seq<Slice>, legacy: map<string, string>,
                     unknownActiveIsReady: bool) {
    forall d :: d in desired ==> ReadyIn(d, existing, legacy, unknownActiveIsReady)
  }

  // ---- What the comparison means, without its lookup map ----

  predicate Named(existing: seq<Slice>, name: string) {
    exists s :: s in existing && s.name == name
  }

  /** `s` is the existing slice that stands for desired slice `d`: the one of its name, or, when
      there is none, the one of its legacy name. */
  predicate Finds(d: Slice, s: Slice, existing: seq<Slice>, legacy: map<string, string>) {
    s in existing
    && (s.name == d.name
        || (!Named(existing, d.name) && d.name in legacy && s.name == legacy[d.name]))
  }

  predicate Expired(s: Slice, p: Policy) {
    RecreationMatches(s, p.recreate) && s.created + p.wait < p.now
  }

  predicate Waiting(d: Slice, s: Slice, existing: seq<Slice>, legacy: map<string, string>, p: Policy) {
    Finds(d, s, existing, legacy) && s.partitions == d.partitions
    && RecreationMatches(s, p.recreate) && s.created + p.wait >= p.now
  }

  lemma LookupFinds(d: Slice, existing: seq<Slice>, legacy: map<string, string>)
    requires DistinctNames(existing)
    ensures var found := Lookup(d.name, Index(existing), legacy);
            && (found.Some? ==> Finds(d, found.value, existing, legacy))
            && (forall s :: Finds(d, s, existing, legacy) ==> found == Some(s))
            && (found.None? <==> !Named(existing, d.name)
                                 && (d.name in legacy ==> !Named(existing, legacy[d.name])))
  {
    IndexIsExisting(existing);
  }

  lemma {:induction false} ListMembers(desired: seq<Slice>, index: map<string, Slice>, legacy: map<string, string>,
                                       p: Policy, n: nat)
    requires n <= |desired|
    ensures forall s :: s in Deletes(desired, index, legacy, p, n) <==>
                        exists k :: 0 <= k < n && Judge(desired[k], index, legacy, p) == Replace(s)
    ensures forall s :: s in Creates(desired, index, legacy, n) <==>
                        exists k :: 0 <= k < n && desired[k] == s && Judge(desired[k], index, legacy, p) == Missing
    ensures forall t :: t in Delays(desired, index, legacy, p, n) <==>
                        exists k :: 0 <= k < n && Judge(desired[k], index, legacy, p).Await?
                                    && t == Judge(desired[k], index, legacy, p).deadline - p.now + Jitter(p, k)
    ensures |Deletes(desired, index, legacy, p, n)| + |Creates(desired, index, legacy, n)|
            + |Delays(desired, index, legacy, p, n)| + Kept(desired, index, legacy, p, n) == n
  {
    DeletesMembers(desired, index, legacy, p, n);
    CreatesMembers(desired, index, legacy, p, n);
    if n > 0 {
      ListMembers(desired, index, legacy, p, n - 1);
    }
  }

  lemma {:induction false} DeletesMembers(desired: seq<Slice>, index: map<string, Slice>, legacy: map<string, string>,
                                          p: Policy, n: nat)
    requires n <= |desired|
    ensures forall s :: s in Deletes(desired, index, legacy, p, n) <==>
                        exists k :: 0 <= k < n && Judge(desired[k], index, legacy, p) == Replace(s)
  {
    if n > 0 { DeletesMembers(desired, index, legacy, p, n - 1); }
  }

  lemma {:induction false} CreatesMembers(desired: seq<Slice>, index: map<string, Slice>, legacy: map<string, string>,
                                          p: Policy, n: nat)
    requires n <= |desired|
    ensures forall s :: s in Creates(desired, index, legacy, n) <==>
                        exists k :: 0 <= k < n && desired[k] == s && Judge(desired[k], index, legacy, p) == Missing
  {
    if n > 0 { CreatesMembers(desired, index, legacy, p, n - 1); }
  }

  function Kept(desired: seq<Slice>, index: map<string, Slice>, legacy: map<string, string>, p: Policy, n: nat): nat
    requires n <= |desired|
  {
    if n == 0 then 0
    else Kept(desired, index, legacy, p, n - 1) + if Judge(desired[n - 1], index, legacy, p).Keep? then 1 else 0
  }

  lemma CreatesExact(desired: seq<Slice>, existing: seq<Slice>, legacy: map<string, string>, p: Policy, d: Slice)
    requires DistinctNames(existing)
    ensures d in Diff(desired, existing, legacy, p).toCreate <==>
            d in desired && !Named(existing, d.name) && (d.name in legacy ==> !Named(existing, legacy[d.name]))
  {
    ListMembers(desired, Index(existing), legacy, p, |desired|);
    LookupFinds(d, existing, legacy);
    assert d in desired <==> exists k :: 0 <= k < |desired| && desired[k] == d;
  }

  lemma DeletesExact(desired: seq<Slice>, existing: seq<Slice>, legacy: map<string, string>, p: Policy, s: Slice)
    requires DistinctNames(existing)
    ensures s in Diff(desired, existing, legacy, p).toDelete <==>
            exists d :: d in desired && Finds(d, s, existing, legacy) && (s.partitions != d.partitions || Expired(s, p))
  {
    var index := Index(existing);
    ListMembers(desired, index, legacy, p, |desired|);
    if s in Diff(desired, existing, legacy, p).toDelete {
      var k :| 0 <= k < |desired| && Judge(desired[k], index, legacy, p) == Replace(s);
      LookupFinds(desired[k], existing, legacy);
      assert desired[k] in desired && Finds(desired[k], s, existing, legacy);
    }
    if d :| d in desired && Finds(d, s, existing, legacy) && (s.partitions != d.partitions || Expired(s, p)) {
      LookupFinds(d, existing, legacy);
      var k :| 0 <= k < |desired| && desired[k] == d;
      assert Judge(desired[k], index, legacy, p) == Replace(s);
    }
  }

  /** `diffSlices` is exact: it creates precisely the desired slices that exist under neither name,
      deletes precisely the existing slices that stand for a desired one and have other partitions
      or an expired recreate condition, and never names one slice in both lists. */
  lemma DiffExact(desired: seq<Slice>, existing: seq<Slice>, legacy: map<string, string>, p: Policy)
    requires DistinctNames(existing)
    ensures var plan := Diff(desired, existing, legacy, p);
            && (forall d :: d in plan.toCreate <==>
                  d in desired && !Named(existing, d.name) && (d.name in legacy ==> !Named(existing, legacy[d.name])))
            && (forall s :: s in plan.toDelete <==>
                  exists d :: d in desired && Finds(d, s, existing, legacy)
                              && (s.partitions != d.partitions || Expired(s, p)))
            && (forall s, d :: s in plan.toDelete && d in plan.toCreate ==> s.name != d.name)
  {
    var plan := Diff(desired, existing, legacy, p);
    forall d { CreatesExact(desired, existing, legacy, p, d); }
    forall s { DeletesExact(desired, existing, legacy, p, s); }
    forall s, d | s in plan.toDelete && d in plan.toCreate ensures s.name != d.name {
      assert s in existing && !Named(existing, d.name);
    }
  }

  /** The zero-as-none fold is the minimum of positive delays, and zero exactly when there is none. */
  lemma {:induction false} EarliestIsMinimum(delays: seq<int>)
    requires forall t :: t in delays ==> t > 0
    ensures delays == [] ==> Earliest(delays) == 0
    ensures delays != [] ==> Earliest(delays) in delays && forall t :: t in delays ==> Earliest(delays) <= t
  {
    if delays != [] {
      var init, last := delays[..|delays| - 1], delays[|delays| - 1];
      assert delays == init + [last];
      assert forall t :: t in init ==> t in delays;
      EarliestIsMinimum(init);
    }
  }

  lemma WaitsAreDelays(desired: seq<Slice>, existing: seq<Slice>, legacy: map<string, string>, p: Policy, d: Slice,
                       s: Slice)
    requires DistinctNames(existing) && d in desired && Waiting(d, s, existing, legacy, p)
    ensures exists t :: t in Delays(desired, Index(existing), legacy, p, |desired|)
                        && t <= s.created + p.wait - p.now + 2 * SECOND
  {
    LookupFinds(d, existing, legacy);
    ListMembers(desired, Index(existing), legacy, p, |desired|);
    var k :| 0 <= k < |desired| && desired[k] == d;
    assert Judge(desired[k], Index(existing), legacy, p) == Await(s, s.created + p.wait);
    assert s.created + p.wait - p.now + Jitter(p, k) in Delays(desired, Index(existing), legacy, p, |desired|);
  }

  lemma DelaysAreWaits(desired: seq<Slice>, existing: seq<Slice>, legacy: map<string, string>, p: Policy, t: int)
    requires DistinctNames(existing) && t in Delays(desired, Index(existing), legacy, p, |desired|)
    ensures t >= SECOND
    ensures exists d, s :: d in desired && Waiting(d, s, existing, legacy, p) && Expired(s, p.(now := p.now + t))
  {
    ListMembers(desired, Index(existing), legacy, p, |desired|);
    var k :| 0 <= k < |desired| && Judge(desired[k], Index(existing), legacy, p).Await?
             && t == Judge(desired[k], Index(existing), legacy, p).deadline - p.now + Jitter(p, k);
    var s := Judge(desired[k], Index(existing), legacy, p).existing;
    LookupFinds(desired[k], existing, legacy);
    assert Waiting(desired[k], s, existing, legacy, p) && Expired(s, p.(now := p.now + t));
  }

  /** No waiting slice is forgotten: a wake-up is asked for exactly when some slice waits, at least a
      second ahead, no later than two seconds past any waiting deadline, and when it fires some
      waiting slice is strictly past its own deadline, so that the next comparison deletes it. */
  lemma WaitingIsNotForgotten(desired: seq<Slice>, existing: seq<Slice>, legacy: map<string, string>, p: Policy)
    requires DistinctNames(existing)
    ensures var t := Diff(desired, existing, legacy, p).requeueAfter;
            && (t != 0 <==> exists d, s :: d in desired && Waiting(d, s, existing, legacy, p))
            && (t != 0 ==> t >= SECOND)
            && (forall d, s :: d in desired && Waiting(d, s, existing, legacy, p) ==>
                  t <= s.created + p.wait - p.now + 2 * SECOND)
            && (t != 0 ==> exists d, s :: d in desired && Waiting(d, s, existing, legacy, p)
                                          && Expired(s, p.(now := p.now + t)))
  {
    var delays := Delays(desired, Index(existing), legacy, p, |desired|);
    forall x | x in delays ensures x >= SECOND { DelaysAreWaits(desired, existing, legacy, p, x); }
    EarliestIsMinimum(delays);
    forall d, s | d in desired && Waiting(d, s, existing, legacy, p)
      ensures delays != [] && Earliest(delays) <= s.created + p.wait - p.now + 2 * SECOND
    {
      WaitsAreDelays(desired, existing, legacy, p, d, s);
    }
    if delays != [] { DelaysAreWaits(desired, existing, legacy, p, Earliest(delays)); }
  }

  // ---- What the conditions of a slice mean ----

  /** A text contains another exactly when it is that other one between two further texts. */
  lemma {:induction false} ContainsExactly(s: string, sub: string)
    ensures Contains(s, sub) <==> exists a, b :: s == a + sub + b
  {
    if sub <= s {
      assert s == "" + sub + s[|sub|..];
    } else if s != "" {
      ContainsExactly(s[1..], sub);
      if Contains(s[1..], sub) {
        var a, b :| s[1..] == a + sub + b;
        assert s == ([s[0]] + a) + sub + b;
      }
    }
    forall a, b | s == a + sub + b ensures Contains(s, sub) { MiddleIsContained(a, sub, b); }
  }

  lemma {:induction false} MiddleIsContained(a: string, sub: string, b: string)
    ensures Contains(a + sub + b, sub)
  {
    if a == "" {
      assert a + sub + b == sub + b;
    } else {
      MiddleIsContained(a[1..], sub, b);
      assert (a + sub + b)[1..] == a[1..] + sub + b;
    }
  }

  /** A recreate entry matches exactly a Ready condition that is not True, bears its reason and contains its
      substring. */
  lemma MatchesExactly(s: Slice, recreate: seq<RecreateCondition>)
    ensures RecreationMatches(s, recreate) <==>
            exists c, r, a, b :: c in s.conditions && c.kind == "Ready"
                                 && (c.status.StatusFalse? || c.status.StatusUnknown?)
                                 && r in recreate && c.reason == r.reason && c.message == a + r.substring + b
  {
    forall c: Condition, r: RecreateCondition
      ensures r.substring == "" || Contains(c.message, r.substring) <==>
              exists a, b :: c.message == a + r.substring + b
    {
      ContainsExactly(c.message, r.substring);
      if r.substring == "" { assert c.message == "" + r.substring + c.message; }
    }
  }

  /** A slice that stands for a desired one, has its partitions and reports such a condition is deleted when
      its wait is over, and looked at again at most two seconds after that when it is not. */
  lemma FailedIsRecreated(desired: seq<Slice>, existing: seq<Slice>, legacy: map<string, string>, p: Policy,
                          d: Slice, s: Slice, c: Condition, r: RecreateCondition, a: string, b: string)
    requires DistinctNames(existing) && d in desired && Finds(d, s, existing, legacy) && s.partitions == d.partitions
    requires c in s.conditions && c.kind == "Ready" && (c.status.StatusFalse? || c.status.StatusUnknown?)
    requires r in p.recreate && c.reason == r.reason && c.message == a + r.substring + b
    ensures var plan := Diff(desired, existing, legacy, p);
            && (s.created + p.wait < p.now ==> s in plan.toDelete)
            && (s.created + p.wait >= p.now ==>
                  1_000_000_000 <= plan.requeueAfter <= s.created + p.wait - p.now + 2_000_000_000)
  {
    MatchesExactly(s, p.recreate);
    DeletesExact(desired, existing, legacy, p, s);
    WaitingIsNotForgotten(desired, existing, legacy, p);
    if s.created + p.wait >= p.now { assert Waiting(d, s, existing, legacy, p); }
  }

  /** No condition of the slice is one to recreate it for. */
  ghost predicate Unharmed(s: Slice, recreate: seq<RecreateCondition>) {
    forall c, r, a, b :: c in s.conditions && r in recreate && c.message == a + r.substring + b ==>
      c.kind != "Ready" || c.status.StatusTrue? || c.reason != r.reason
  }

  /** A slice with the desired partitions and no such condition is neither deleted nor created anew, and only
      slices with one are waited for. */
  lemma UnharmedIsKept(desired: seq<Slice>, existing: seq<Slice>, legacy: map<string, string>, p: Policy, s: Slice)
    requires DistinctNames(existing) && Unharmed(s, p.recreate)
    requires forall d :: d in desired && Finds(d, s, existing, legacy) ==> s.partitions == d.partitions
    ensures var plan := Diff(desired, existing, legacy, p);
            && s !in plan.toDelete
            && (forall d :: d in plan.toCreate ==> !Finds(d, s, existing, legacy))
            && ((forall t :: t in existing ==> Unharmed(t, p.recreate)) ==> plan.requeueAfter == 0)
  {
    MatchesExactly(s, p.recreate);
    DiffExact(desired, existing, legacy, p);
    WaitingIsNotForgotten(desired, existing, legacy, p);
    if d, t :| d in desired && Waiting(d, t, existing, legacy, p) { MatchesExactly(t, p.recreate); }
  }

  /** No slice is there for `d` with a Ready condition that is True or, with the option on and the slice not
      terminating, Unknown for reason ACTIVE. */
  ghost predicate Unready(d: Slice, existing: seq<Slice>, legacy: map<string, string>, unknownActiveIsReady: bool) {
    forall s, c :: Finds(d, s, existing, legacy) && c in s.conditions && c.kind == "Ready" ==>
      !c.status.StatusTrue?
      && !(unknownActiveIsReady && !s.terminating && c.status.StatusUnknown? && c.reason == "ACTIVE")
  }

  lemma ReadyExactly(d: Slice, existing: seq<Slice>, legacy: map<string, string>, unknownActiveIsReady: bool)
    requires DistinctNames(existing)
    ensures ReadyIn(d, existing, legacy, unknownActiveIsReady) <==> !Unready(d, existing, legacy, unknownActiveIsReady)
  {
    LookupFinds(d, existing, legacy);
  }

  /** The desired slices count as ready exactly when none of them is unready. */
  lemma AllReadyExactly(desired: seq<Slice>, existing: seq<Slice>, legacy: map<string, string>,
                        unknownActiveIsReady: bool)
    requires DistinctNames(existing)
    ensures AllReady(desired, existing, legacy, unknownActiveIsReady) <==>
            forall d :: d in desired ==> !Unready(d, existing, legacy, unknownActiveIsReady)
  {
    forall d | d in desired
      ensures ReadyIn(d, existing, legacy, unknownActiveIsReady) <==>
              !Unready(d, existing, legacy, unknownActiveIsReady)
    {
      ReadyExactly(d, existing, legacy, unknownActiveIsReady);
    }
  }
}
