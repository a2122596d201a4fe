/** The marks of requests in flight: the three `sync.Map` fields of `GKE`, with every `Load`, `Store` and
    `Delete` a step of its own (internal/cloud/gke.go). */
module Marks {
  /** A key of one of the three maps: a pool name being created, a job key, a pool name being deleted. */
  datatype Mark = Creates(name: string) | Jobs(key: string) | Deletes(name: string)

  /** Where a call is: the operation it carries out next. */
  datatype Point =
    | CheckPool
    | LoadName | StoreName | LoadJob | StoreJob | CreatePool | DropJob | DropName
    | LoadDelete | StoreDelete | DeletePool | DropDelete
    | Finished

  /** A call of `EnsureNodePoolForPod`, or of `DeleteNodePool` alone when it starts at `LoadDelete`; an
      empty job key stands for a pod without one. */
  datatype Call = Call(name: string, jobKey: string, at: Point)

  datatype State = State(calls: seq<Call>, marks: set<Mark>)

  /** What the state check finds. */
  datatype Found = NotExists | Matches | NotMatches | CheckFailed

  datatype Event = NewEnsure(name: string, jobKey: string) | NewDelete(name: string) | Step(c: nat, found: Found)

  function AfterName(c: Call): Point { if c.jobKey != "" then LoadJob else CreatePool }

  /** One `Load` and, when `atomic`, the `Store` in the same step: the call goes on to `next` with the mark
      set, or to `taken` when the mark was there. */
  function Take(atomic: bool, s: State, m: Mark, store: Point, next: Point, taken: Point): (Point, set<Mark>) {
    if m in s.marks then (taken, s.marks)
    else if atomic then (next, s.marks + {m})
    else (store, s.marks)
  }

  function StepOf(atomic: bool, s: State, c: Call, found: Found): (Point, set<Mark>) {
    match c.at
    case CheckPool =>
      (match found
       case NotExists => (LoadName, s.marks)
       case NotMatches => (LoadDelete, s.marks)
       case _ => (Finished, s.marks))
    case LoadName => Take(atomic, s, Creates(c.name), StoreName, AfterName(c), Finished)
    case StoreName => (AfterName(c), s.marks + {Creates(c.name)})
    case LoadJob => Take(atomic, s, Jobs(c.jobKey), StoreJob, CreatePool, DropName)
    case StoreJob => (CreatePool, s.marks + {Jobs(c.jobKey)})
    case CreatePool => (if c.jobKey != "" then DropJob else DropName, s.marks)
    case DropJob => (DropName, s.marks - {Jobs(c.jobKey)})
    case DropName => (Finished, s.marks - {Creates(c.name)})
    case LoadDelete => Take(atomic, s, Deletes(c.name), StoreDelete, DeletePool, Finished)
    case StoreDelete => (DeletePool, s.marks + {Deletes(c.name)})
    case DeletePool => (DropDelete, s.marks)
    case DropDelete => (Finished, s.marks - {Deletes(c.name)})
    case Finished => (Finished, s.marks)
  }

  function Do(atomic: bool, s: State, e: Event): State {
    match e
    case NewEnsure(name, jobKey) => s.(calls := s.calls + [Call(name, jobKey, CheckPool)])
    case NewDelete(name) => s.(calls := s.calls + [Call(name, "", LoadDelete)])
    case Step(c, found) =>
      if c < |s.calls| then
        var (at, marks) := StepOf(atomic, s, s.calls[c], found);
        State(s.calls[c := s.calls[c].(at := at)], marks)
      else s
  }

  function Run(atomic: bool, s: State, es: seq<Event>): State
    decreases |es|
  {
    if es == [] then s else Run(atomic, Do(atomic, s, es[0]), es[1..])
  }

  const NOTHING := State([], {})

  // ---- One call alone ----

  /** The operations of a call that runs alone, and the marks it leaves; nine operations end any call. */
  function Alone(marks: set<Mark>, c: Call, found: Found, n: nat): (seq<Point>, set<Mark>)
    decreases n
  {
    if n == 0 || c.at.Finished? then ([], marks)
    else
      var (at, marks') := StepOf(false, State([], marks), c, found);
      var (rest, left) := Alone(marks', c.(at := at), found, n - 1);
      ([c.at] + rest, left)
  }

  lemma StepAlone(marks: set<Mark>, c: Call, found: Found, n: nat, at: Point, marks': set<Mark>)
    requires !c.at.Finished? && n > 0 && StepOf(false, State([], marks), c, found) == (at, marks')
    ensures Alone(marks, c, found, n) ==
            ([c.at] + Alone(marks', c.(at := at), found, n - 1).0, Alone(marks', c.(at := at), found, n - 1).1)
  {
  }

  /** A call that finds its pool missing marks the pool and then the job, creates, and drops both marks in turn; if
      the pool is marked it does nothing more, and if the job is, it takes back its mark of the pool. */
  lemma CreateAlone(marks: set<Mark>, name: string, jobKey: string)
    requires jobKey != ""
    ensures var (path, left) := Alone(marks, Call(name, jobKey, CheckPool), NotExists, 9);
            && left == marks
            && path == if Creates(name) in marks then [CheckPool, LoadName]
                       else if Jobs(jobKey) in marks then [CheckPool, LoadName, StoreName, LoadJob, DropName]
                       else [CheckPool, LoadName, StoreName, LoadJob, StoreJob, CreatePool, DropJob, DropName]
  {
    var c := Call(name, jobKey, CheckPool);
    StepAlone(marks, c, NotExists, 9, LoadName, marks);
    if Creates(name) in marks {
      StepAlone(marks, c.(at := LoadName), NotExists, 8, Finished, marks);
    } else {
      StepAlone(marks, c.(at := LoadName), NotExists, 8, StoreName, marks);
      NameMarkedAlone(marks, c, marks + {Creates(name)});
    }
  }

  lemma NameMarkedAlone(marks: set<Mark>, c: Call, named: set<Mark>)
    requires c.jobKey != "" && Creates(c.name) !in marks && named == marks + {Creates(c.name)}
    ensures var (path, left) := Alone(marks, c.(at := StoreName), NotExists, 7);
            && left == marks
            && path == if Jobs(c.jobKey) in marks then [StoreName, LoadJob, DropName]
                       else [StoreName, LoadJob, StoreJob, CreatePool, DropJob, DropName]
  {
    StepAlone(marks, c.(at := StoreName), NotExists, 7, LoadJob, named);
    if Jobs(c.jobKey) in marks {
      StepAlone(named, c.(at := LoadJob), NotExists, 6, DropName, named);
      NameDroppedAlone(marks, c, named, 5);
    } else {
      StepAlone(named, c.(at := LoadJob), NotExists, 6, StoreJob, named);
      JobMarkedAlone(marks, c, named, named + {Jobs(c.jobKey)});
    }
  }

  lemma JobMarkedAlone(marks: set<Mark>, c: Call, named: set<Mark>, both: set<Mark>)
    requires c.jobKey != "" && Creates(c.name) !in marks && named == marks + {Creates(c.name)}
    requires Jobs(c.jobKey) !in marks && both == named + {Jobs(c.jobKey)}
    ensures var (path, left) := Alone(named, c.(at := StoreJob), NotExists, 5);
            left == marks && path == [StoreJob, CreatePool, DropJob, DropName]
  {
    StepAlone(named, c.(at := StoreJob), NotExists, 5, CreatePool, both);
    StepAlone(both, c.(at := CreatePool), NotExists, 4, DropJob, both);
    assert both - {Jobs(c.jobKey)} == named;
    StepAlone(both, c.(at := DropJob), NotExists, 3, DropName, named);
    NameDroppedAlone(marks, c, named, 2);
  }

  lemma NameDroppedAlone(marks: set<Mark>, c: Call, named: set<Mark>, n: nat)
    requires Creates(c.name) !in marks && named == marks + {Creates(c.name)} && n > 0
    ensures var (path, left) := Alone(named, c.(at := DropName), NotExists, n); left == marks && path == [DropName]
  {
    assert named - {Creates(c.name)} == marks;
    StepAlone(named, c.(at := DropName), NotExists, n, Finished, marks);
  }

  /** A call that finds its pool with another hash marks the delete, deletes, and drops the mark, unless the delete is
      marked; and one that finds it matching, or whose lookup fails, does nothing. */
  lemma DeleteAlone(marks: set<Mark>, name: string, jobKey: string, found: Found)
    requires !found.NotExists?
    ensures var (path, left) := Alone(marks, Call(name, jobKey, CheckPool), found, 9);
            && left == marks
            && path == if !found.NotMatches? then [CheckPool]
                       else if Deletes(name) in marks then [CheckPool, LoadDelete]
                       else [CheckPool, LoadDelete, StoreDelete, DeletePool, DropDelete]
  {
    var c := Call(name, jobKey, CheckPool);
    if !found.NotMatches? {
      StepAlone(marks, c, found, 9, Finished, marks);
    } else {
      StepAlone(marks, c, NotMatches, 9, LoadDelete, marks);
      if Deletes(name) in marks {
        StepAlone(marks, c.(at := LoadDelete), NotMatches, 8, Finished, marks);
      } else {
        StepAlone(marks, c.(at := LoadDelete), NotMatches, 8, StoreDelete, marks);
        DeleteMarkedAlone(marks, c, marks + {Deletes(name)});
      }
    }
  }

  lemma DeleteMarkedAlone(marks: set<Mark>, c: Call, marked: set<Mark>)
    requires Deletes(c.name) !in marks && marked == marks + {Deletes(c.name)}
    ensures var (path, left) := Alone(marks, c.(at := StoreDelete), NotMatches, 7);
            left == marks && path == [StoreDelete, DeletePool, DropDelete]
  {
    assert marked - {Deletes(c.name)} == marks;
    StepAlone(marks, c.(at := StoreDelete), NotMatches, 7, DeletePool, marked);
    StepAlone(marked, c.(at := DeletePool), NotMatches, 6, DropDelete, marked);
    StepAlone(marked, c.(at := DropDelete), NotMatches, 5, Finished, marks);
  }

  /** The marks a call has set and not yet dropped. */
  function Holding(c: Call): set<Mark> {
    match c.at
    case LoadJob => {Creates(c.name)}
    case StoreJob => {Creates(c.name)}
    case CreatePool => if c.jobKey != "" then {Creates(c.name), Jobs(c.jobKey)} else {Creates(c.name)}
    case DropJob => {Creates(c.name), Jobs(c.jobKey)}
    case DropName => {Creates(c.name)}
    case DeletePool => {Deletes(c.name)}
    case DropDelete => {Deletes(c.name)}
    case _ => {}
  }

  // ---- No mark is left behind ----

  predicate HeldBySome(s: State, m: Mark) {
    exists c :: 0 <= c < |s.calls| && m in Holding(s.calls[c])
  }

  /** Only calls for pods with a job key come to the job marks. */
  predicate WellFormed(c: Call) {
    c.at.LoadJob? || c.at.StoreJob? || c.at.DropJob? ==> c.jobKey != ""
  }

  predicate MarksAreHeld(s: State) {
    && (forall m :: m in s.marks ==> HeldBySome(s, m))
    && (forall c :: 0 <= c < |s.calls| ==> WellFormed(s.calls[c]))
  }

  lemma NewCallKeepsHeld(atomic: bool, s: State, e: Event)
    requires MarksAreHeld(s) && !e.Step?
    ensures MarksAreHeld(Do(atomic, s, e))
  {
    var s' := Do(atomic, s, e);
    forall m | m in s'.marks ensures HeldBySome(s', m) {
      var c :| 0 <= c < |s.calls| && m in Holding(s.calls[c]);
      assert s'.calls[c] == s.calls[c];
    }
  }

  /** A step changes the marks exactly as it changes what its call holds. */
  lemma StepMovesMarks(atomic: bool, s: State, c: Call, found: Found)
    requires WellFormed(c)
    ensures var (at, marks) := StepOf(atomic, s, c, found);
            && WellFormed(c.(at := at))
            && forall m :: m in marks ==> m in Holding(c.(at := at)) || (m in s.marks && m !in Holding(c))
  {
  }

  lemma StepKeepsHeld(atomic: bool, s: State, c: nat, found: Found)
    requires MarksAreHeld(s) && c < |s.calls|
    ensures MarksAreHeld(Do(atomic, s, Step(c, found)))
  {
    var s' := Do(atomic, s, Step(c, found));
    StepMovesMarks(atomic, s, s.calls[c], found);
    forall m | m in s'.marks ensures HeldBySome(s', m) {
      if m in Holding(s'.calls[c]) {
      } else {
        var d :| 0 <= d < |s.calls| && m in Holding(s.calls[d]);
        assert s'.calls[d] == s.calls[d];
      }
    }
  }

  lemma {:induction false} HeldInEveryRun(atomic: bool, s: State, es: seq<Event>)
    requires MarksAreHeld(s)
    ensures MarksAreHeld(Run(atomic, s, es))
    decreases |es|
  {
    if es != [] {
      if es[0].Step? && es[0].c < |s.calls| { StepKeepsHeld(atomic, s, es[0].c, es[0].found); }
      else if !es[0].Step? { NewCallKeepsHeld(atomic, s, es[0]); }
      HeldInEveryRun(atomic, Do(atomic, s, es[0]), es[1..]);
    }
  }

  /** In every interleaving, on every exit path: a mark belongs to a running call, and once no call runs
      no mark is left. */
  lemma NoMarkIsLeftBehind(atomic: bool, es: seq<Event>)
    ensures var s := Run(atomic, NOTHING, es);
            && (forall m :: m in s.marks ==>
                  exists c :: 0 <= c < |s.calls| && !s.calls[c].at.Finished? && m in Holding(s.calls[c]))
            && ((forall c :: 0 <= c < |s.calls| ==> s.calls[c].at.Finished?) ==> s.marks == {})
  {
    HeldInEveryRun(atomic, NOTHING, es);
    var s := Run(atomic, NOTHING, es);
    forall m | m in s.marks
      ensures exists c :: 0 <= c < |s.calls| && !s.calls[c].at.Finished? && m in Holding(s.calls[c])
    {
      var c :| 0 <= c < |s.calls| && m in Holding(s.calls[c]);
      assert !s.calls[c].at.Finished?;
    }
  }

  // ---- When the marks deduplicate ----

  /** The mark a call has found unset and is about to set. */
  function Pending(c: Call): set<Mark> {
    match c.at
    case StoreName => {Creates(c.name)}
    case StoreJob => {Jobs(c.jobKey)}
    case StoreDelete => {Deletes(c.name)}
    case _ => {}
  }

  function Claims(c: Call): set<Mark> { Holding(c) + Pending(c) }

  /** The mark a call loads next. */
  function Loads(c: Call): set<Mark> {
    match c.at
    case LoadName => {Creates(c.name)}
    case LoadJob => {Jobs(c.jobKey)}
    case LoadDelete => {Deletes(c.name)}
    case _ => {}
  }

  predicate AllWellFormed(s: State) {
    forall c :: 0 <= c < |s.calls| ==> WellFormed(s.calls[c])
  }

  /** Mark `m` is set if a call holds it, and no two calls hold it or are about to set it. */
  predicate ApartOn(s: State, m: Mark) {
    && (forall c :: 0 <= c < |s.calls| && m in Holding(s.calls[c]) ==> m in s.marks)
    && (forall c, d :: 0 <= c < |s.calls| && 0 <= d < |s.calls| && c != d ==>
          !(m in Claims(s.calls[c]) && m in Claims(s.calls[d])))
  }

  /** The step loads `m` and finds it unset only because another call has not come to setting it. */
  predicate IntrudesOn(s: State, e: Event, m: Mark) {
    e.Step? && e.c < |s.calls| && m in Loads(s.calls[e.c]) && m !in s.marks
    && exists d :: 0 <= d < |s.calls| && d != e.c && m in Pending(s.calls[d])
  }

  /** What a step does to the claim of its call on `m`: it drops it, or takes it on by loading `m` unset. */
  lemma StepClaims(atomic: bool, s: State, c: Call, found: Found, m: Mark)
    requires WellFormed(c) && (m in Holding(c) ==> m in s.marks)
    ensures var (at, marks) := StepOf(atomic, s, c, found);
            var c' := c.(at := at);
            && WellFormed(c') && (m in Holding(c') ==> m in marks)
            && (m in s.marks && m !in Holding(c) ==> m in marks)
            && (m in Claims(c') <==> (m in Claims(c) && m in Claims(c')) || (m in Loads(c) && m !in s.marks))
  {
  }

  lemma AllStayWellFormed(atomic: bool, s: State, e: Event)
    requires AllWellFormed(s)
    ensures AllWellFormed(Do(atomic, s, e))
  {
    if e.Step? && e.c < |s.calls| { StepMovesMarks(atomic, s, s.calls[e.c], e.found); }
  }

  /** One step keeps the calls apart on a mark exactly when it does not intrude on it. */
  lemma StepIsApartOnIff(atomic: bool, s: State, e: Event, m: Mark)
    requires AllWellFormed(s) && ApartOn(s, m)
    ensures ApartOn(Do(atomic, s, e), m) <==> !IntrudesOn(s, e, m)
  {
    var s' := Do(atomic, s, e);
    if e.Step? && e.c < |s.calls| {
      var c := s.calls[e.c];
      StepClaims(atomic, s, c, e.found, m);
      if IntrudesOn(s, e, m) {
        var d :| 0 <= d < |s.calls| && d != e.c && m in Pending(s.calls[d]);
        assert s'.calls[d] == s.calls[d] && m in Claims(s'.calls[e.c]);
      } else {
        forall d | 0 <= d < |s.calls| && d != e.c
          ensures m in Holding(s.calls[d]) ==> m in s'.marks
          ensures !(m in Claims(s'.calls[e.c]) && m in Claims(s.calls[d]))
        {
          assert !(m in Claims(c) && m in Claims(s.calls[d]));
        }
      }
    }
  }

  lemma {:induction false} RunSnoc(atomic: bool, s: State, es: seq<Event>, e: Event)
    ensures Run(atomic, s, es + [e]) == Do(atomic, Run(atomic, s, es), e)
    decreases |es|
  {
    if es == [] {
      assert Run(atomic, s, [e]) == Run(atomic, Do(atomic, s, e), [e][1..]);
    } else {
      assert (es + [e])[1..] == es[1..] + [e];
      RunSnoc(atomic, Do(atomic, s, es[0]), es[1..], e);
    }
  }

  ghost predicate NeverIntrudesOn(atomic: bool, es: seq<Event>, m: Mark) {
    forall i :: 0 <= i < |es| ==> !IntrudesOn(Run(atomic, NOTHING, es[..i]), es[i], m)
  }

  ghost predicate AlwaysApartOn(atomic: bool, es: seq<Event>, m: Mark) {
    forall i :: 0 <= i <= |es| ==> ApartOn(Run(atomic, NOTHING, es[..i]), m)
  }

  lemma AlwaysApartSnoc(atomic: bool, es: seq<Event>, e: Event, m: Mark)
    ensures AlwaysApartOn(atomic, es + [e], m) <==>
            AlwaysApartOn(atomic, es, m) && ApartOn(Run(atomic, NOTHING, es + [e]), m)
  {
    var all := es + [e];
    assert all[..|all|] == all;
    assert forall i :: 0 <= i <= |es| ==> all[..i] == es[..i];
  }

  lemma NeverIntrudesSnoc(atomic: bool, es: seq<Event>, e: Event, m: Mark)
    ensures NeverIntrudesOn(atomic, es + [e], m) <==>
            NeverIntrudesOn(atomic, es, m) && !IntrudesOn(Run(atomic, NOTHING, es), e, m)
  {
    var all := es + [e];
    assert all[..|es|] == es && all[|es|] == e;
    assert forall i :: 0 <= i < |es| ==> all[..i] == es[..i] && all[i] == es[i];
  }

  /** A run keeps its calls apart on a mark throughout exactly when no step of it intrudes on that mark. */
  lemma {:induction false} RunIsApartOnIff(atomic: bool, es: seq<Event>, m: Mark)
    ensures AllWellFormed(Run(atomic, NOTHING, es))
    ensures AlwaysApartOn(atomic, es, m) <==> NeverIntrudesOn(atomic, es, m)
    decreases |es|
  {
    if es == [] {
      assert es[..0] == [];
    } else {
      var init, last := es[..|es| - 1], es[|es| - 1];
      assert es == init + [last];
      RunIsApartOnIff(atomic, init, m);
      AlwaysApartSnoc(atomic, init, last, m);
      NeverIntrudesSnoc(atomic, init, last, m);
      RunSnoc(atomic, NOTHING, init, last);
      AllStayWellFormed(atomic, Run(atomic, NOTHING, init), last);
      if AlwaysApartOn(atomic, init, m) {
        assert init[..|init|] == init;
        StepIsApartOnIff(atomic, Run(atomic, NOTHING, init), last, m);
      }
    }
  }

  lemma SharedMarkTakesIntrusion(atomic: bool, es: seq<Event>, c: nat, d: nat, m: Mark)
    requires c < d < |Run(atomic, NOTHING, es).calls|
    requires m in Holding(Run(atomic, NOTHING, es).calls[c]) && m in Holding(Run(atomic, NOTHING, es).calls[d])
    ensures !NeverIntrudesOn(atomic, es, m)
  {
    RunIsApartOnIff(atomic, es, m);
    assert es[..|es|] == es;
  }

  /** The code as written, where a mark is loaded and stored in two steps. Two creates of one pool in flight take
      an intrusion on the mark of its name, and another one on the mark of the job key if they share it; two
      creates for one job key take one on its mark; two deletes of one pool take one on its mark. */
  lemma MarksDeduplicate(atomic: bool, es: seq<Event>, c: nat, d: nat)
    requires c < d < |Run(atomic, NOTHING, es).calls|
    ensures var x, y := Run(atomic, NOTHING, es).calls[c], Run(atomic, NOTHING, es).calls[d];
            && (x.at.CreatePool? && y.at.CreatePool? && x.name == y.name ==>
                  !NeverIntrudesOn(atomic, es, Creates(x.name)))
            && (x.at.CreatePool? && y.at.CreatePool? && x.jobKey == y.jobKey != "" ==>
                  !NeverIntrudesOn(atomic, es, Jobs(x.jobKey)))
            && (x.at.DeletePool? && y.at.DeletePool? && x.name == y.name ==>
                  !NeverIntrudesOn(atomic, es, Deletes(x.name)))
  {
    var x, y := Run(atomic, NOTHING, es).calls[c], Run(atomic, NOTHING, es).calls[d];
    HeldWhileAtWork(x);
    HeldWhileAtWork(y);
    if x.at.CreatePool? && y.at.CreatePool? {
      if x.name == y.name { SharedMarkTakesIntrusion(atomic, es, c, d, Creates(x.name)); }
      if x.jobKey == y.jobKey != "" { SharedMarkTakesIntrusion(atomic, es, c, d, Jobs(x.jobKey)); }
    }
    if x.at.DeletePool? && y.at.DeletePool? && x.name == y.name {
      SharedMarkTakesIntrusion(atomic, es, c, d, Deletes(x.name));
    }
  }

  lemma {:induction false} AtomicNeverPends(s: State, es: seq<Event>)
    requires forall c :: 0 <= c < |s.calls| ==> Pending(s.calls[c]) == {}
    ensures forall c :: 0 <= c < |Run(true, s, es).calls| ==> Pending(Run(true, s, es).calls[c]) == {}
    decreases |es|
  {
    if es != [] { AtomicNeverPends(Do(true, s, es[0]), es[1..]); }
  }

  lemma AtomicNeverIntrudes(es: seq<Event>, m: Mark)
    ensures NeverIntrudesOn(true, es, m)
  {
    forall i | 0 <= i < |es| ensures !IntrudesOn(Run(true, NOTHING, es[..i]), es[i], m) {
      AtomicNeverPends(NOTHING, es[..i]);
    }
  }

  /** If a load and its store were one step, no step could intrude: in every run at most one create per pool name
      and per job key and one delete per pool name would be in flight. */
  lemma AtomicMarksDeduplicate(es: seq<Event>, c: nat, d: nat)
    requires c < d < |Run(true, NOTHING, es).calls|
    ensures var x, y := Run(true, NOTHING, es).calls[c], Run(true, NOTHING, es).calls[d];
            && (x.at.CreatePool? && y.at.CreatePool? ==> x.name != y.name && (x.jobKey == "" || x.jobKey != y.jobKey))
            && (x.at.DeletePool? && y.at.DeletePool? ==> x.name != y.name)
  {
    var x := Run(true, NOTHING, es).calls[c];
    MarksDeduplicate(true, es, c, d);
    AtomicNeverIntrudes(es, Creates(x.name));
    AtomicNeverIntrudes(es, Jobs(x.jobKey));
    AtomicNeverIntrudes(es, Deletes(x.name));
  }

  lemma HeldWhileAtWork(c: Call)
    ensures c.at.CreatePool? ==> Creates(c.name) in Holding(c) && (c.jobKey != "" ==> Jobs(c.jobKey) in Holding(c))
    ensures c.at.DeletePool? ==> Deletes(c.name) in Holding(c)
  {
  }

  /** The state in which two calls for one pool and one job are at the same point. */
  function Both(name: string, jobKey: string, at: Point, marks: set<Mark>): State {
    State([Call(name, jobKey, at), Call(name, jobKey, at)], marks)
  }

  /** As the code has it, two calls can both load each mark before either stores it, and both create the pool. */
  lemma SeparateLoadAndStoreRace(name: string, jobKey: string)
    requires jobKey != ""
    ensures var es := [NewEnsure(name, jobKey), NewEnsure(name, jobKey)] + Turns(5);
            Run(false, NOTHING, es) == Both(name, jobKey, CreatePool, {Creates(name), Jobs(jobKey)})
  {
    Arrivals(name, jobKey);
    NameIsStoredTwice(name, jobKey);
    JobIsStoredTwice(name, jobKey);
  }

  lemma NameIsStoredTwice(name: string, jobKey: string)
    requires jobKey != ""
    ensures Run(false, Both(name, jobKey, CheckPool, {}), Turns(5)) ==
            Run(false, Both(name, jobKey, LoadJob, {Creates(name)}), Turns(2))
  {
    StoresAre(name, jobKey);
    Turn(name, jobKey, CheckPool, {}, LoadName, {}, 5);
    Turn(name, jobKey, LoadName, {}, StoreName, {}, 4);
    Turn(name, jobKey, StoreName, {}, LoadJob, {Creates(name)}, 3);
  }

  lemma JobIsStoredTwice(name: string, jobKey: string)
    requires jobKey != ""
    ensures Run(false, Both(name, jobKey, LoadJob, {Creates(name)}), Turns(2)) ==
            Both(name, jobKey, CreatePool, {Creates(name), Jobs(jobKey)})
  {
    var one, two := {Creates(name)}, {Creates(name), Jobs(jobKey)};
    StoresAre(name, jobKey);
    Turn(name, jobKey, LoadJob, one, StoreJob, one, 2);
    Turn(name, jobKey, StoreJob, one, CreatePool, two, 1);
  }

  lemma StoresAre(name: string, jobKey: string)
    requires jobKey != ""
    ensures var x, one := Call(name, jobKey, StoreName), {Creates(name)};
            && StepOf(false, State([], {}), x, NotExists) == (LoadJob, one)
            && StepOf(false, State([], one), x, NotExists) == (LoadJob, one)
    ensures var x, one, two := Call(name, jobKey, StoreJob), {Creates(name)}, {Creates(name), Jobs(jobKey)};
            && StepOf(false, State([], one), x, NotExists) == (CreatePool, two)
            && StepOf(false, State([], two), x, NotExists) == (CreatePool, two)
  {
    var one, two := {Creates(name)}, {Creates(name), Jobs(jobKey)};
    assert {} + one == one + one == one && one + {Jobs(jobKey)} == two + {Jobs(jobKey)} == two;
  }

  lemma Arrivals(name: string, jobKey: string)
    ensures Run(false, NOTHING, [NewEnsure(name, jobKey), NewEnsure(name, jobKey)] + Turns(5)) ==
            Run(false, Both(name, jobKey, CheckPool, {}), Turns(5))
  {
    var es := [NewEnsure(name, jobKey), NewEnsure(name, jobKey)] + Turns(5);
    assert Do(false, Do(false, NOTHING, es[0]), es[1]) == Both(name, jobKey, CheckPool, {});
    TwoSteps(NOTHING, Both(name, jobKey, CheckPool, {}), es);
    assert es[2..] == Turns(5);
  }

  /** The two calls take turns `n` times. */
  function Turns(n: nat): seq<Event> {
    if n == 0 then [] else [Step(0, NotExists), Step(1, NotExists)] + Turns(n - 1)
  }

  /** Both calls take the same step: the second finds what the first has found. */
  lemma Turn(name: string, jobKey: string, at: Point, marks: set<Mark>, next: Point, after: set<Mark>, n: nat)
    requires n > 0
    requires StepOf(false, State([], marks), Call(name, jobKey, at), NotExists) == (next, after)
    requires StepOf(false, State([], after), Call(name, jobKey, at), NotExists) == (next, after)
    ensures Run(false, Both(name, jobKey, at, marks), Turns(n)) ==
            Run(false, Both(name, jobKey, next, after), Turns(n - 1))
  {
    var s := Both(name, jobKey, at, marks);
    var s1 := State([Call(name, jobKey, next), Call(name, jobKey, at)], after);
    assert StepOf(false, s, s.calls[0], NotExists) == (next, after);
    assert Do(false, s, Step(0, NotExists)) == s1;
    assert StepOf(false, s1, s1.calls[1], NotExists) == (next, after);
    TwoSteps(s, Both(name, jobKey, next, after), Turns(n));
    assert Turns(n)[2..] == Turns(n - 1);
  }

  lemma TwoSteps(s: State, s': State, es: seq<Event>)
    requires |es| >= 2
    requires Do(false, Do(false, s, es[0]), es[1]) == s'
    ensures Run(false, s, es) == Run(false, s', es[2..])
  {
    assert es[1..][1..] == es[2..];
    var s1 := Do(false, s, es[0]);
    assert Run(false, s, es) == Run(false, s1, es[1..]);
    assert Run(false, s1, es[1..]) == Run(false, Do(false, s1, es[1]), es[1..][1..]);
  }
}
