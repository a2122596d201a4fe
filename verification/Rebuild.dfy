/** Concurrent calls on one node pool: the marks of `Marks` together with the pools they protect
    (internal/cloud/gke.go). A pool that has been rebuilt stays exactly as long as no call that compared it
    before the rebuild is still about to delete it. */
module Rebuild {
  import opened Marks

  /** The pools by name, and whether each is taken for matching what the pods want. */
  datatype Joint = Joint(s: State, pools: map<string, bool>)

  /** A new call, or the next operation of call `c`; `done` says whether the provider carries it out. */
  datatype Move = Arrive(e: Event) | Go(c: nat, done: bool)

  function See(pools: map<string, bool>, name: string): Found {
    if name !in pools then NotExists else if pools[name] then Matches else NotMatches
  }

  /** What an operation does to the pools. A create of a pool that exists is refused. */
  function Touch(pools: map<string, bool>, c: Call, done: bool): map<string, bool> {
    if done && c.at.CreatePool? && c.name !in pools then pools[c.name := true]
    else if done && c.at.DeletePool? then pools - {c.name}
    else pools
  }

  function Next(atomic: bool, j: Joint, m: Move): Joint {
    match m
    case Arrive(e) => if e.Step? then j else j.(s := Do(atomic, j.s, e))
    case Go(c, done) =>
      if c >= |j.s.calls| then j
      else
        var call := j.s.calls[c];
        var found := if done then See(j.pools, call.name) else CheckFailed;
        Joint(Do(atomic, j.s, Step(c, found)), Touch(j.pools, call, done))
  }

  function Play(atomic: bool, j: Joint, ms: seq<Move>): Joint
    decreases |ms|
  {
    if ms == [] then j else Play(atomic, Next(atomic, j, ms[0]), ms[1..])
  }

  predicate Built(j: Joint, n: string) { n in j.pools && j.pools[n] }

  /** The call has decided to delete the pool and has not done so yet. */
  predicate WillDelete(c: Call, n: string) {
    c.name == n && (c.at.LoadDelete? || c.at.StoreDelete? || c.at.DeletePool?)
  }

  predicate SomeWillDelete(j: Joint, n: string) {
    exists c :: 0 <= c < |j.s.calls| && WillDelete(j.s.calls[c], n)
  }

  /** Nobody asks for the deletion of the pool as such. */
  predicate NoDeleteAsked(ms: seq<Move>, n: string) {
    forall m :: m in ms ==> m != Arrive(NewDelete(n))
  }

  lemma BuiltStaysOneStep(atomic: bool, j: Joint, m: Move, n: string)
    requires Built(j, n) && !SomeWillDelete(j, n) && m != Arrive(NewDelete(n))
    ensures Built(Next(atomic, j, m), n) && !SomeWillDelete(Next(atomic, j, m), n)
  {
    var j' := Next(atomic, j, m);
    forall c | 0 <= c < |j'.s.calls| ensures !WillDelete(j'.s.calls[c], n) {
      if c < |j.s.calls| { assert !WillDelete(j.s.calls[c], n); }
    }
  }

  lemma {:induction false} BuiltStays(atomic: bool, j: Joint, ms: seq<Move>, n: string)
    requires Built(j, n) && !SomeWillDelete(j, n) && NoDeleteAsked(ms, n)
    ensures Built(Play(atomic, j, ms), n)
    decreases |ms|
  {
    if ms != [] {
      assert ms[0] in ms && forall m :: m in ms[1..] ==> m in ms;
      BuiltStaysOneStep(atomic, j, ms[0], n);
      BuiltStays(atomic, Next(atomic, j, ms[0]), ms[1..], n);
    }
  }

  /** A call that holds its mark, or finds it free, reaches its delete within three operations. */
  lemma ThreeMovesDelete(atomic: bool, j: Joint, c: nat, n: string)
    requires c < |j.s.calls| && WillDelete(j.s.calls[c], n)
    requires j.s.calls[c].at.LoadDelete? ==> Deletes(n) !in j.s.marks
    ensures !Built(Play(atomic, j, [Go(c, true), Go(c, true), Go(c, true)]), n)
  {
    var g := Go(c, true);
    var j1 := Next(atomic, j, g);
    var j2 := Next(atomic, j1, g);
    var j3 := Next(atomic, j2, g);
    assert [g, g, g][1..] == [g, g] && [g, g][1..] == [g] && [g][1..] == [];
    assert Play(atomic, j, [g, g, g]) == Play(atomic, j1, [g, g]) == Play(atomic, j2, [g]) == j3;
  }

  /** A mark in the way belongs to a call that deletes the pool itself or is about to drop the mark. */
  lemma FreeTheMark(atomic: bool, j: Joint, c: nat, d: nat, n: string) returns (ms: seq<Move>)
    requires c < |j.s.calls| && j.s.calls[c].at.LoadDelete? && j.s.calls[c].name == n
    requires d < |j.s.calls| && Deletes(n) in Holding(j.s.calls[d])
    ensures NoDeleteAsked(ms, n) && !Built(Play(atomic, j, ms), n)
  {
    var g := Go(d, true);
    if j.s.calls[d].at.DeletePool? {
      ms := [g, g, g];
      ThreeMovesDelete(atomic, j, d, n);
    } else {
      var j1 := Next(atomic, j, g);
      var h := Go(c, true);
      ms := [g, h, h, h];
      assert ms[1..] == [h, h, h];
      ThreeMovesDelete(atomic, j1, c, n);
    }
  }

  lemma DeleterCanStrike(atomic: bool, j: Joint, n: string) returns (ms: seq<Move>)
    requires MarksAreHeld(j.s) && SomeWillDelete(j, n)
    ensures NoDeleteAsked(ms, n) && !Built(Play(atomic, j, ms), n)
  {
    var c :| 0 <= c < |j.s.calls| && WillDelete(j.s.calls[c], n);
    if j.s.calls[c].at.LoadDelete? && Deletes(n) in j.s.marks {
      var d :| 0 <= d < |j.s.calls| && Deletes(n) in Holding(j.s.calls[d]);
      ms := FreeTheMark(atomic, j, c, d, n);
    } else {
      ThreeMovesDelete(atomic, j, c, n);
      ms := [Go(c, true), Go(c, true), Go(c, true)];
    }
  }

  ghost predicate StaysBuilt(atomic: bool, j: Joint, n: string) {
    forall ms :: NoDeleteAsked(ms, n) ==> Built(Play(atomic, j, ms), n)
  }

  /** Exactly when a built pool survives every interleaving of calls that want it: when no call is on its
      way to delete it. A mark, even one loaded and stored in one step, does not protect it. */
  lemma BuiltStaysIff(atomic: bool, j: Joint, n: string)
    requires MarksAreHeld(j.s) && Built(j, n)
    ensures StaysBuilt(atomic, j, n) <==> !SomeWillDelete(j, n)
  {
    if SomeWillDelete(j, n) {
      var ms := DeleterCanStrike(atomic, j, n);
    } else {
      forall ms | NoDeleteAsked(ms, n) ensures Built(Play(atomic, j, ms), n) { BuiltStays(atomic, j, ms, n); }
    }
  }

  lemma {:induction false} PlayJoin(atomic: bool, j: Joint, a: seq<Move>, b: seq<Move>)
    ensures Play(atomic, j, a + b) == Play(atomic, Play(atomic, j, a), b)
    decreases |a|
  {
    if a == [] {
      assert a + b == b;
    } else {
      assert (a + b)[1..] == a[1..] + b;
      PlayJoin(atomic, Next(atomic, j, a[0]), a[1..], b);
    }
  }

  lemma ThreeMoves(atomic: bool, j: Joint, a: Move, b: Move, c: Move)
    ensures Play(atomic, j, [a, b, c]) == Next(atomic, Next(atomic, Next(atomic, j, a), b), c)
  {
    assert [a, b, c][1..] == [b, c] && [b, c][1..] == [c] && [c][1..] == [];
    var j1 := Next(atomic, j, a);
    assert Play(atomic, j1, [b, c]) == Play(atomic, Next(atomic, j1, b), [c]);
  }

  /** Two calls for one pod compare the old pool and the first deletes it. */
  function Deletion(n: string, k: string): seq<Move> {
    [Arrive(NewEnsure(n, k)), Arrive(NewEnsure(n, k)), Go(0, true)] + ([Go(1, true), Go(0, true), Go(0, true)]
    + [Go(0, true), Go(0, true), Arrive(NewEnsure(n, k))])
  }

  /** The third call builds it anew. */
  function Creation(): seq<Move> {
    [Go(2, true), Go(2, true), Go(2, true)] + [Go(2, true), Go(2, true), Go(2, true)]
  }

  /** So, with the marks as the code has them, a rebuild can be undone: after this run, from a state without
      calls, the pool is built, and the second call is still about to delete it. */
  lemma RebuildCanBeUndone(n: string, k: string)
    requires k != ""
    ensures var after := Play(false, Joint(NOTHING, map[n := false]), Deletion(n, k) + Creation());
            Built(after, n) && !StaysBuilt(false, after, n)
  {
    PlayJoin(false, Joint(NOTHING, map[n := false]), Deletion(n, k), Creation());
    DeletesFirst(n, k);
    ThenRebuilds(n, k);
    assert WillDelete(Rebuilt(n, k).s.calls[1], n);
    assert Creates(n) in Holding(Rebuilt(n, k).s.calls[2]) && Jobs(k) in Holding(Rebuilt(n, k).s.calls[2]);
    BuiltStaysIff(false, Rebuilt(n, k), n);
  }

  /** The first call is through, the second has compared the old pool, the third has arrived. */
  function OldDeleted(n: string, k: string): Joint {
    Joint(State([Call(n, k, Finished), Call(n, k, LoadDelete), Call(n, k, CheckPool)], {}), map[])
  }

  function Rebuilt(n: string, k: string): Joint {
    Joint(State([Call(n, k, Finished), Call(n, k, LoadDelete), Call(n, k, DropJob)], {Creates(n), Jobs(k)}),
          map[n := true])
  }

  lemma DeletesFirst(n: string, k: string)
    ensures Play(false, Joint(NOTHING, map[n := false]), Deletion(n, k)) == OldDeleted(n, k)
  {
    var j0 := Joint(NOTHING, map[n := false]);
    var j3 := Joint(State([Call(n, k, LoadDelete), Call(n, k, CheckPool)], {}), map[n := false]);
    var j6 := Joint(State([Call(n, k, DeletePool), Call(n, k, LoadDelete)], {Deletes(n)}), map[n := false]);
    var x, y, z := Arrive(NewEnsure(n, k)), Go(0, true), Go(1, true);
    BothArrive(n, k, j0, j3);
    SecondCompares(n, k, j3, j6);
    FirstDeletes(n, k, j6, OldDeleted(n, k));
    ThreeMoves(false, j0, x, x, y);
    ThreeMoves(false, j3, z, y, y);
    ThreeMoves(false, j6, y, y, x);
    PlayJoin(false, j0, [x, x, y], [z, y, y] + [y, y, x]);
    PlayJoin(false, j3, [z, y, y], [y, y, x]);
  }

  lemma ThenRebuilds(n: string, k: string)
    requires k != ""
    ensures Play(false, OldDeleted(n, k), Creation()) == Rebuilt(n, k)
  {
    var j12 := Joint(State([Call(n, k, Finished), Call(n, k, LoadDelete), Call(n, k, LoadJob)], {Creates(n)}), map[]);
    var x := Go(2, true);
    ThirdMarksName(n, k, OldDeleted(n, k), j12);
    ThirdBuilds(n, k, j12, Rebuilt(n, k));
    ThreeMoves(false, OldDeleted(n, k), x, x, x);
    ThreeMoves(false, j12, x, x, x);
    PlayJoin(false, OldDeleted(n, k), [x, x, x], [x, x, x]);
  }

  lemma BothArrive(n: string, k: string, j: Joint, j': Joint)
    requires j == Joint(NOTHING, map[n := false])
    requires j' == Joint(State([Call(n, k, LoadDelete), Call(n, k, CheckPool)], {}), map[n := false])
    ensures var x := Arrive(NewEnsure(n, k));
            Next(false, Next(false, Next(false, j, x), x), Go(0, true)) == j'
  {
  }

  lemma SecondCompares(n: string, k: string, j: Joint, j': Joint)
    requires j == Joint(State([Call(n, k, LoadDelete), Call(n, k, CheckPool)], {}), map[n := false])
    requires j' == Joint(State([Call(n, k, DeletePool), Call(n, k, LoadDelete)], {Deletes(n)}), map[n := false])
    ensures Next(false, Next(false, Next(false, j, Go(1, true)), Go(0, true)), Go(0, true)) == j'
  {
  }

  lemma FirstDeletes(n: string, k: string, j: Joint, j': Joint)
    requires j == Joint(State([Call(n, k, DeletePool), Call(n, k, LoadDelete)], {Deletes(n)}), map[n := false])
    requires j' == Joint(State([Call(n, k, Finished), Call(n, k, LoadDelete), Call(n, k, CheckPool)], {}), map[])
    ensures Next(false, Next(false, Next(false, j, Go(0, true)), Go(0, true)), Arrive(NewEnsure(n, k))) == j'
  {
  }

  lemma ThirdMarksName(n: string, k: string, j: Joint, j': Joint)
    requires k != ""
    requires j == Joint(State([Call(n, k, Finished), Call(n, k, LoadDelete), Call(n, k, CheckPool)], {}), map[])
    requires j' == Joint(State([Call(n, k, Finished), Call(n, k, LoadDelete), Call(n, k, LoadJob)], {Creates(n)}),
                         map[])
    ensures Next(false, Next(false, Next(false, j, Go(2, true)), Go(2, true)), Go(2, true)) == j'
  {
  }

  lemma ThirdBuilds(n: string, k: string, j: Joint, j': Joint)
    requires k != ""
    requires j == Joint(State([Call(n, k, Finished), Call(n, k, LoadDelete), Call(n, k, LoadJob)], {Creates(n)}), map[])
    requires j' == Joint(State([Call(n, k, Finished), Call(n, k, LoadDelete), Call(n, k, DropJob)],
                               {Creates(n), Jobs(k)}), map[n := true])
    ensures Next(false, Next(false, Next(false, j, Go(2, true)), Go(2, true)), Go(2, true)) == j'
  {
  }
}
