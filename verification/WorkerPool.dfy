/** The semaphore worker pools of `EnsureStaticNodePools` and `DeleteStaticNodePools`
    (internal/cloud/gke.go) as a machine whose steps are single channel and wait-group operations. */
module WorkerPool {
  import opened Base

  /** A worker: not yet started, about to do its item, about to send its error, about to give back its
      semaphore slot, about to call `wg.Done`, or gone. */
  datatype Phase =
    | NotStarted
    | Working
    | Sending
    | Releasing(failed: bool)
    | Finishing(failed: bool)
    | Ended(failed: bool)

  /** The caller: at `wg.Add`, at the send on the semaphore, at the `go` statement of item `i`; then at
      `wg.Wait`, at `close`, and reading the errors. */
  datatype Main =
    | Adding(i: nat)
    | Acquiring(i: nat)
    | Spawning(i: nat)
    | Waiting
    | Closing
    | Draining(got: seq<nat>)
    | Returned(got: seq<nat>)

  /** `sem` counts the slots taken; `errs` is the error channel, with room for one error per item;
      `attempts` counts how often each item was carried out. */
  datatype State = State(
    cap: nat, main: Main, workers: seq<Phase>, wg: int, sem: nat, errs: seq<nat>, attempts: seq<nat>)

  datatype Event = MainStep | WorkerStep(k: nat, fails: bool)

  predicate HoldsSlot(p: Phase) { p.Working? || p.Sending? || p.Releasing? }

  predicate Alive(p: Phase) { HoldsSlot(p) || p.Finishing? }

  predicate Closed(m: Main) { m.Draining? || m.Returned? }

  function Start(n: nat, cap: nat): State {
    State(cap, Adding(0), seq(n, _ => NotStarted), 0, 0, [], seq(n, _ => 0))
  }

  /** Whether the step can be taken, rather than block. */
  predicate Enabled(s: State, e: Event) {
    match e
    case MainStep =>
      (match s.main
       case Adding(i) => i <= |s.workers|
       case Acquiring(i) => s.sem < s.cap
       case Spawning(i) => i < |s.workers|
       case Waiting => s.wg == 0
       case Closing => true
       case Draining(_) => true
       case Returned(_) => false)
    case WorkerStep(k, _) =>
      k < |s.workers| && k < |s.attempts| &&
      (match s.workers[k]
       case NotStarted => false
       case Working => true
       case Sending => |s.errs| < |s.workers|
       case Releasing(_) => s.sem > 0
       case Finishing(_) => true
       case Ended(_) => false)
  }

  /** A send on the closed channel, or a wait group below zero. */
  predicate Panics(s: State, e: Event)
    requires Enabled(s, e)
  {
    e.WorkerStep? && (if s.workers[e.k].Sending? then Closed(s.main) else s.workers[e.k].Finishing? && s.wg <= 0)
  }

  function Do(s: State, e: Event): State
    requires Enabled(s, e)
  {
    match e
    case MainStep =>
      (match s.main
       case Adding(i) => if i == |s.workers| then s.(main := Waiting) else s.(main := Acquiring(i), wg := s.wg + 1)
       case Acquiring(i) => s.(main := Spawning(i), sem := s.sem + 1)
       case Spawning(i) => s.(main := Adding(i + 1), workers := s.workers[i := Working])
       case Waiting => s.(main := Closing)
       case Closing => s.(main := Draining([]))
       case Draining(got) =>
         if s.errs == [] then s.(main := Returned(got))
         else s.(main := Draining(got + [s.errs[0]]), errs := s.errs[1..]))
    case WorkerStep(k, fails) =>
      (match s.workers[k]
       case Working =>
         s.(workers := s.workers[k := if fails then Sending else Releasing(false)],
            attempts := s.attempts[k := s.attempts[k] + 1])
       case Sending => s.(workers := s.workers[k := Releasing(true)], errs := s.errs + [k])
       case Releasing(f) => s.(workers := s.workers[k := Finishing(f)], sem := s.sem - 1)
       case Finishing(f) => s.(workers := s.workers[k := Ended(f)], wg := s.wg - 1))
  }

  predicate Schedule(s: State, es: seq<Event>)
    decreases |es|
  {
    es == [] || (Enabled(s, es[0]) && Schedule(Do(s, es[0]), es[1..]))
  }

  function Run(s: State, es: seq<Event>): State
    requires Schedule(s, es)
    decreases |es|
  {
    if es == [] then s else Run(Do(s, es[0]), es[1..])
  }

  // ---- Counting workers ----

  function Count(ws: seq<Phase>, f: Phase -> bool): nat {
    if ws == [] then 0 else Count(ws[..|ws| - 1], f) + (if f(ws[|ws| - 1]) then 1 else 0)
  }

  lemma {:induction false} CountUpdate(ws: seq<Phase>, k: nat, p: Phase, f: Phase -> bool)
    requires k < |ws|
    ensures Count(ws[k := p], f) == Count(ws, f) - (if f(ws[k]) then 1 else 0) + (if f(p) then 1 else 0)
  {
    if k == |ws| - 1 {
      assert ws[k := p][..k] == ws[..k];
    } else {
      CountUpdate(ws[..|ws| - 1], k, p, f);
      assert ws[k := p][..|ws| - 1] == ws[..|ws| - 1][k := p];
    }
  }

  lemma {:induction false} CountNone(ws: seq<Phase>, f: Phase -> bool)
    ensures Count(ws, f) == 0 <==> forall k :: 0 <= k < |ws| ==> !f(ws[k])
  {
    if ws != [] {
      CountNone(ws[..|ws| - 1], f);
      assert forall k :: 0 <= k < |ws| - 1 ==> ws[..|ws| - 1][k] == ws[k];
    }
  }

  lemma FindOne(ws: seq<Phase>, f: Phase -> bool) returns (k: nat)
    requires Count(ws, f) > 0
    ensures k < |ws| && f(ws[k])
  {
    CountNone(ws, f);
    k :| 0 <= k < |ws| && f(ws[k]);
  }

  // ---- The invariant ----

  predicate ErrorSent(p: Phase) { (p.Releasing? || p.Finishing? || p.Ended?) && p.failed }

  function Spawned(s: State): nat {
    if s.main.Adding? || s.main.Acquiring? || s.main.Spawning? then s.main.i else |s.workers|
  }

  function Got(m: Main): seq<nat> { if Closed(m) then m.got else [] }

  predicate ItemsInv(s: State) {
    && |s.attempts| == |s.workers| && Spawned(s) <= |s.workers|
    && (s.main.Acquiring? || s.main.Spawning? ==> s.main.i < |s.workers|)
    && (forall k :: 0 <= k < |s.workers| ==>
          && (s.workers[k].NotStarted? <==> k >= Spawned(s))
          && s.attempts[k] == (if s.workers[k].NotStarted? || s.workers[k].Working? then 0 else 1))
    && (s.main.Closing? || Closed(s.main) ==> forall k :: 0 <= k < |s.workers| ==> s.workers[k].Ended?)
  }

  predicate CountersInv(s: State) {
    && s.wg == Count(s.workers, Alive) + (if s.main.Acquiring? || s.main.Spawning? then 1 else 0)
    && s.sem == Count(s.workers, HoldsSlot) + (if s.main.Spawning? then 1 else 0)
    && s.sem <= s.cap
  }

  /** The channel and the errors read from it hold exactly one error per item that reported one. */
  ghost predicate ErrorsInv(s: State) {
    var reported := Got(s.main) + s.errs;
    && Distinct(reported)
    && (forall k: nat :: k in reported <==> k < |s.workers| && ErrorSent(s.workers[k]))
    && (s.main.Returned? ==> s.errs == [])
  }

  ghost predicate Inv(s: State) { ItemsInv(s) && CountersInv(s) && ErrorsInv(s) }

  lemma StartInv(n: nat, cap: nat)
    ensures Inv(Start(n, cap))
  {
    CountNone(Start(n, cap).workers, Alive);
    CountNone(Start(n, cap).workers, HoldsSlot);
  }

  lemma CountersKept(s: State, e: Event)
    requires Inv(s) && Enabled(s, e)
    ensures CountersInv(Do(s, e))
  {
    match e
    case MainStep =>
      if s.main.Spawning? {
        CountUpdate(s.workers, s.main.i, Working, Alive);
        CountUpdate(s.workers, s.main.i, Working, HoldsSlot);
      }
    case WorkerStep(k, _) =>
      CountUpdate(s.workers, k, Do(s, e).workers[k], Alive);
      CountUpdate(s.workers, k, Do(s, e).workers[k], HoldsSlot);
  }

  lemma ItemsKept(s: State, e: Event)
    requires Inv(s) && Enabled(s, e)
    ensures ItemsInv(Do(s, e))
  {
    if e.MainStep? && s.main.Waiting? { CountNone(s.workers, Alive); }
  }

  lemma ErrorsKept(s: State, e: Event)
    requires Inv(s) && Enabled(s, e)
    ensures ErrorsInv(Do(s, e))
  {
    var reported, s' := Got(s.main) + s.errs, Do(s, e);
    var reported' := Got(s'.main) + s'.errs;
    if e.MainStep? {
      assert reported' == reported;
    } else if s.workers[e.k].Sending? {
      assert reported' == reported + [e.k];
    } else {
      assert reported' == reported;
    }
  }

  lemma {:induction false} RunKeepsInv(s: State, es: seq<Event>)
    requires Inv(s) && Schedule(s, es)
    ensures Inv(Run(s, es)) && Run(s, es).cap == s.cap && |Run(s, es).workers| == |s.workers|
    decreases |es|
  {
    if es != [] {
      CountersKept(s, es[0]);
      ItemsKept(s, es[0]);
      ErrorsKept(s, es[0]);
      RunKeepsInv(Do(s, es[0]), es[1..]);
    }
  }

  // ---- What holds at every moment of every interleaving ----

  lemma {:induction false} Upto(n: nat) returns (s: set<nat>)
    ensures |s| == n && forall x: nat :: x in s <==> x < n
  {
    s := {};
    if n > 0 {
      s := Upto(n - 1);
      s := s + {n - 1};
    }
  }

  function Members(q: seq<nat>): set<nat> { set x: nat | x in q }

  lemma {:induction false} DistinctSize(q: seq<nat>)
    requires Distinct(q)
    ensures |Members(q)| == |q|
  {
    if q != [] {
      DistinctSize(q[1..]);
      assert q == [q[0]] + q[1..];
      assert Members(q) == Members(q[1..]) + {q[0]};
      forall k | 0 <= k < |q[1..]| ensures q[1..][k] != q[0] { assert q[k + 1] == q[1..][k]; }
    }
  }

  lemma SubsetSize<T>(a: set<T>, b: set<T>)
    requires a <= b
    ensures |a| <= |b|
  {
    assert b == a + (b - a);
  }

  /** The error channel never blocks a worker that has an error to send. */
  lemma RoomForTheError(s: State, k: nat)
    requires Inv(s) && k < |s.workers| && s.workers[k].Sending?
    ensures |s.errs| < |s.workers| && !Closed(s.main)
  {
    var all := Upto(|s.workers|);
    assert Got(s.main) + s.errs == s.errs;
    DistinctSize(s.errs);
    SubsetSize(Members(s.errs), all - {k});
  }

  /** At most `cap` workers hold a slot, no item is carried out twice, no step panics, and the error
      channel never blocks. */
  lemma EveryMomentIsSafe(n: nat, cap: nat, es: seq<Event>)
    requires Schedule(Start(n, cap), es)
    ensures var s := Run(Start(n, cap), es);
            && Count(s.workers, HoldsSlot) <= cap
            && (forall k :: 0 <= k < |s.attempts| ==> s.attempts[k] <= 1)
            && (forall e :: Enabled(s, e) ==> !Panics(s, e))
            && (forall k, f :: 0 <= k < |s.workers| && s.workers[k].Sending? ==> Enabled(s, WorkerStep(k, f)))
  {
    StartInv(n, cap);
    RunKeepsInv(Start(n, cap), es);
    var s := Run(Start(n, cap), es);
    forall k: nat | k < |s.workers| && s.workers[k].Sending? ensures |s.errs| < |s.workers| && !Closed(s.main) {
      RoomForTheError(s, k);
    }
    forall k: nat | k < |s.workers| && s.workers[k].Finishing? ensures s.wg > 0 {
      CountNone(s.workers, Alive);
    }
  }

  // ---- Progress ----

  lemma AliveCanStep(s: State, k: nat)
    requires Inv(s) && k < |s.workers| && Alive(s.workers[k])
    ensures Enabled(s, WorkerStep(k, false))
  {
    CountNone(s.workers, HoldsSlot);
    if s.workers[k].Sending? { RoomForTheError(s, k); }
  }

  /** Until it returns, the call can always take some step, if it has a slot to give or nothing to do. */
  lemma NeverStuck(s: State) returns (e: Event)
    requires Inv(s) && !s.main.Returned? && (s.cap >= 1 || s.workers == [])
    ensures Enabled(s, e)
  {
    e := MainStep;
    if s.main.Acquiring? && s.sem == s.cap {
      var k := FindOne(s.workers, HoldsSlot);
      AliveCanStep(s, k);
      e := WorkerStep(k, false);
    } else if s.main.Waiting? && s.wg > 0 {
      var k := FindOne(s.workers, Alive);
      AliveCanStep(s, k);
      e := WorkerStep(k, false);
    }
  }

  function Weight(p: Phase): nat {
    match p
    case NotStarted => 5
    case Working => 4
    case Sending => 3
    case Releasing(_) => 2
    case Finishing(_) => 1
    case Ended(_) => 0
  }

  function Weights(ws: seq<Phase>): nat {
    if ws == [] then 0 else Weights(ws[..|ws| - 1]) + Weight(ws[|ws| - 1])
  }

  lemma {:induction false} WeightsUpdate(ws: seq<Phase>, k: nat, p: Phase)
    requires k < |ws|
    ensures Weights(ws[k := p]) == Weights(ws) - Weight(ws[k]) + Weight(p)
  {
    if k == |ws| - 1 {
      assert ws[k := p][..k] == ws[..k];
    } else {
      WeightsUpdate(ws[..|ws| - 1], k, p);
      assert ws[k := p][..|ws| - 1] == ws[..|ws| - 1][k := p];
    }
  }

  /** Steps the caller still has to take itself. */
  function MainSteps(s: State): int {
    var n := |s.workers|;
    match s.main
    case Adding(i) => 3 * (n - i) + n + 4
    case Acquiring(i) => 3 * (n - i) + n + 3
    case Spawning(i) => 3 * (n - i) + n + 2
    case Waiting => n + 3
    case Closing => n + 2
    case Draining(_) => |s.errs| + 1
    case Returned(_) => 0
  }

  function Remaining(s: State): int { Weights(s.workers) + MainSteps(s) }

  lemma ErrorsFit(s: State)
    requires Inv(s)
    ensures |s.errs| <= |s.workers|
  {
    var all := Upto(|s.workers|);
    var reported := Got(s.main) + s.errs;
    DistinctSize(reported);
    SubsetSize(Members(reported), all);
  }

  lemma MainCountsDown(s: State)
    requires Inv(s) && Enabled(s, MainStep)
    ensures Remaining(Do(s, MainStep)) < Remaining(s)
  {
    ErrorsFit(s);
    if s.main.Spawning? { WeightsUpdate(s.workers, s.main.i, Working); }
  }

  lemma WorkerCountsDown(s: State, k: nat, fails: bool)
    requires Inv(s) && Enabled(s, WorkerStep(k, fails))
    ensures Remaining(Do(s, WorkerStep(k, fails))) < Remaining(s)
  {
    var p := Do(s, WorkerStep(k, fails)).workers[k];
    WeightsUpdate(s.workers, k, p);
    assert Weight(p) < Weight(s.workers[k]);
  }

  /** Every step brings the call nearer to its end. */
  lemma StepsCountDown(s: State, e: Event)
    requires Inv(s) && Enabled(s, e)
    ensures Remaining(Do(s, e)) < Remaining(s)
  {
    match e
    case MainStep => MainCountsDown(s);
    case WorkerStep(k, fails) => WorkerCountsDown(s, k, fails);
  }

  lemma {:induction false} RunsAreBounded(s: State, es: seq<Event>)
    requires Inv(s) && Schedule(s, es)
    ensures |es| <= Remaining(s) - Remaining(Run(s, es)) <= Remaining(s)
    decreases |es|
  {
    if es != [] {
      StepsCountDown(s, es[0]);
      CountersKept(s, es[0]);
      ItemsKept(s, es[0]);
      ErrorsKept(s, es[0]);
      RunsAreBounded(Do(s, es[0]), es[1..]);
    }
  }

  lemma {:induction false} StartWeights(n: nat)
    ensures Weights(seq(n, _ => NotStarted)) == 5 * n
  {
    if n > 0 {
      StartWeights(n - 1);
      assert seq(n, _ => NotStarted)[..n - 1] == seq(n - 1, _ => NotStarted);
    }
  }

  ghost predicate Stuck(s: State) { forall e :: !Enabled(s, e) }

  /** The result of a call that returned: every item was carried out once, and `errors` lists each failed
      item once and nothing else. */
  ghost predicate Complete(s: State) {
    && s.main.Returned?
    && (forall k :: 0 <= k < |s.workers| ==> s.workers[k].Ended? && |s.attempts| == |s.workers| && s.attempts[k] == 1)
    && Distinct(s.main.got)
    && (forall k: nat :: k in s.main.got <==> k < |s.workers| && s.workers[k].Ended? && s.workers[k].failed)
  }

  /** Every interleaving ends within 9n + 4 steps, and where it ends the call has returned, complete. */
  lemma EveryScheduleCompletes(n: nat, cap: nat, es: seq<Event>)
    requires cap >= 1 || n == 0
    requires Schedule(Start(n, cap), es)
    ensures |es| <= 9 * n + 4
    ensures var s := Run(Start(n, cap), es); Stuck(s) ==> Complete(s)
  {
    StartInv(n, cap);
    RunKeepsInv(Start(n, cap), es);
    RunsAreBounded(Start(n, cap), es);
    StartWeights(n);
    var s := Run(Start(n, cap), es);
    if !s.main.Returned? {
      var e := NeverStuck(s);
    } else {
      assert Got(s.main) + s.errs == s.main.got;
    }
  }

  // ---- The two callers ----

  /** `DeleteStaticNodePools` brings any concurrency into range. */
  function DeleteCapacity(n: nat, concurrency: int): nat {
    var c := if concurrency <= 0 then 1 else concurrency;
    if n < c then n else c
  }

  /** A number of workers may be at work at once exactly when there are as many pools and the concurrency, taken as
      one if it is not positive, allows it. */
  lemma DeleteCapacityExactly(n: nat, concurrency: int, workers: nat)
    ensures workers <= DeleteCapacity(n, concurrency) <==> workers <= n && (workers <= 1 || workers <= concurrency)
  {
  }

  lemma DeleteAlwaysCompletes(n: nat, concurrency: int, es: seq<Event>)
    requires Schedule(Start(n, DeleteCapacity(n, concurrency)), es)
    ensures |es| <= 9 * n + 4
    ensures var s := Run(Start(n, DeleteCapacity(n, concurrency)), es);
            && (Stuck(s) ==> Complete(s))
            && (concurrency >= 1 ==> Count(s.workers, HoldsSlot) <= concurrency)
  {
    EveryScheduleCompletes(n, DeleteCapacity(n, concurrency), es);
    EveryMomentIsSafe(n, DeleteCapacity(n, concurrency), es);
  }

  /** `EnsureStaticNodePools` takes the concurrency as it is: a negative one panics at once. */
  function EnsureStart(n: nat, concurrency: int): Option<State> {
    if concurrency < 0 then None else Some(Start(n, concurrency))
  }

  ghost predicate AlwaysCompletes(s: State) {
    forall es :: Schedule(s, es) && Stuck(Run(s, es)) ==> Complete(Run(s, es))
  }

  /** It completes under every interleaving exactly when the concurrency is positive, or zero with
      nothing to create; otherwise it panics or waits for ever for a slot. */
  lemma EnsureCompletesIff(n: nat, concurrency: int)
    ensures EnsureStart(n, concurrency).Some? && AlwaysCompletes(EnsureStart(n, concurrency).value)
            <==> concurrency >= 1 || (concurrency == 0 && n == 0)
  {
    if concurrency >= 1 || (concurrency == 0 && n == 0) {
      var s := Start(n, concurrency);
      forall es | Schedule(s, es) && Stuck(Run(s, es)) ensures Complete(Run(s, es)) {
        EveryScheduleCompletes(n, concurrency, es);
      }
    } else if concurrency == 0 {
      var s := Start(n, 0);
      var es := [MainStep];
      assert es[1..] == [];
      assert Schedule(s, es) && Run(s, es) == Do(s, MainStep);
      assert Stuck(Run(s, es));
    }
  }
}
