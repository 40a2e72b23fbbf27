/** What countTestCases announces, and what a run that nobody stops starts. */
module Counting {
  import opened Tests
  import opened Engine
  import opened Runs
  import opened RunProperties

  /** No repetition in the tree is negative, unless the test inside it counts zero. */
  predicate Sound(t: Test)
    decreases t
  {
    match t
    case Case(_, _) => true
    case Suite(_, _, children) => forall c :: c in children ==> Sound(c)
    case Decorator(_, inner) => Sound(inner)
    case Repeated(_, inner, times) => (times >= 0 || CountTestCases(inner) == 0) && Sound(inner)
  }

  /** The test and every test inside it count what they run. */
  predicate CountsThroughout(t: Test)
    decreases t
  {
    |Schedule(t)| == CountTestCases(t) &&
    match t
    case Case(_, _) => true
    case Suite(_, _, children) => forall c :: c in children ==> CountsThroughout(c)
    case Decorator(_, inner) => CountsThroughout(inner)
    case Repeated(_, inner, _) => CountsThroughout(inner)
  }

  function AtLeastZero(n: int): nat { if n < 0 then 0 else n }

  lemma {:induction false} ScheduleTimesCounts(t: Test, n: int)
    ensures |ScheduleTimes(t, n)| == |Schedule(t)| * AtLeastZero(n)
    decreases AtLeastZero(n)
  {
    if n > 0 {
      ScheduleTimesCounts(t, n - 1);
      assert |Schedule(t)| * n == |Schedule(t)| + |Schedule(t)| * (n - 1);
    }
  }

  /**
   * A repetition counts what it runs exactly when the test inside does and the repetition is positive, or it runs
   * nothing and counts nothing.
   */
  lemma RepetitionCountsExactly(id: nat, inner: Test, times: int)
    ensures |Schedule(Repeated(id, inner, times))| == CountTestCases(Repeated(id, inner, times)) <==>
            if times > 0 then |Schedule(inner)| == CountTestCases(inner) else times == 0 || CountTestCases(inner) == 0
  {
    ScheduleTimesCounts(inner, times);
    var s, c := |Schedule(inner)|, CountTestCases(inner);
    SameFactor(s, c, times);
    SameFactor(0, c, times);
  }

  lemma SameFactor(a: int, b: int, n: int)
    ensures a * n == b * n <==> a == b || n == 0
  {
    if a * n == b * n {
      assert (a - b) * n == 0;
    }
  }

  lemma {:induction false} AllCount(ts: seq<Test>)
    requires forall c :: c in ts ==> |Schedule(c)| == CountTestCases(c)
    ensures |ScheduleAll(ts)| == CountAll(ts)
  {
    if ts != [] {
      assert ts[0] in ts;
      AllCount(ts[1..]);
    }
  }

  /** For every tree: it and everything inside it count what they run exactly when it is sound. */
  lemma {:induction false} SoundExactly(t: Test)
    ensures Sound(t) <==> CountsThroughout(t)
    decreases t
  {
    match t
    case Case(_, _) =>
    case Suite(_, _, children) =>
      forall c | c in children
        ensures Sound(c) <==> CountsThroughout(c)
      {
        SoundExactly(c);
      }
      if forall c :: c in children ==> CountsThroughout(c) {
        AllCount(children);
      }
    case Decorator(_, inner) =>
      SoundExactly(inner);
    case Repeated(id, inner, times) =>
      SoundExactly(inner);
      RepetitionCountsExactly(id, inner, times);
      hide Schedule, CountTestCases, Sound;
      SoundRepetition(id, inner, times);
  }

  lemma SoundRepetition(id: nat, inner: Test, times: int)
    ensures Sound(Repeated(id, inner, times)) <==> (times >= 0 || CountTestCases(inner) == 0) && Sound(inner)
    ensures CountsThroughout(Repeated(id, inner, times)) <==>
            |Schedule(Repeated(id, inner, times))| == CountTestCases(Repeated(id, inner, times)) && CountsThroughout(inner)
  {
  }

  lemma SoundCounts(t: Test)
    requires Sound(t)
    ensures |Schedule(t)| == CountTestCases(t)
  {
    SoundExactly(t);
  }

  /** In a run nobody stops, a sound test starts as many test cases as countTestCases announced. */
  lemma UnstoppedRunCounts(env: Env, t: Test, st: State)
    requires Sound(t) && !Run(env, t, st).stop
    ensures st.trace <= Run(env, t, st).trace
    ensures |Started(Run(env, t, st).trace[|st.trace|..])| == CountTestCases(t)
  {
    RunStartsSchedule(env, t, st);
    SoundCounts(t);
  }

  // ---------- the wrapping suite of TestRunner ----------

  /** The tests the wrapper shows: with exactly one inside, the children of that one. */
  function WrapperChildren(children: seq<Test>): seq<Test> {
    if |children| == 1 then Children(children[0]) else children
  }

  /** What is left of a test without the decorators around it. */
  function Undecorated(t: Test): Test {
    match t
    case Case(_, _) => t
    case Suite(_, _, _) => t
    case Decorator(_, inner) => Undecorated(inner)
    case Repeated(_, inner, _) => Undecorated(inner)
  }

  /** How often the decorators around a test run it. */
  function Rounds(t: Test): nat {
    match t
    case Case(_, _) => 1
    case Suite(_, _, _) => 1
    case Decorator(_, inner) => Rounds(inner)
    case Repeated(_, inner, times) => Rounds(inner) * AtLeastZero(times)
  }

  lemma {:induction false} RunsInRounds(t: Test)
    ensures |Schedule(t)| == |Schedule(Undecorated(t))| * Rounds(t)
    ensures Children(t) == Children(Undecorated(t))
    ensures Undecorated(t).Case? || Undecorated(t).Suite?
  {
    match t
    case Case(_, _) =>
    case Suite(_, _, _) =>
    case Decorator(_, inner) => RunsInRounds(inner);
    case Repeated(_, inner, times) =>
      RunsInRounds(inner);
      ScheduleTimesCounts(inner, times);
      assert Schedule(t) == ScheduleTimes(inner, times) && Rounds(t) == Rounds(inner) * AtLeastZero(times);
      hide Schedule, ScheduleTimes, Rounds, AtLeastZero, Children, Undecorated;
      Regroup(|Schedule(Undecorated(inner))|, Rounds(inner), AtLeastZero(times));
      UnderRepetition(t);
  }

  lemma UnderRepetition(t: Test)
    requires t.Repeated?
    ensures Undecorated(t) == Undecorated(t.inner) && Children(t) == Children(t.inner)
  {
  }

  lemma Regroup(a: int, b: int, c: int)
    ensures (a * b) * c == a * (b * c)
  {
  }

  /**
   * The wrapper runs its tests, or the only one directly, but counts the tests it shows. When these are sound its
   * count is right, except for a single test that is a test case and runs, or a suite that counts something and
   * is not run exactly once.
   */
  lemma WrapperCountsExactly(children: seq<Test>)
    requires forall c :: c in WrapperChildren(children) ==> Sound(c)
    ensures |ScheduleAll(children)| == CountAll(WrapperChildren(children)) <==>
            (|children| == 1 ==>
               if Undecorated(children[0]).Case? then Rounds(children[0]) == 0
               else Rounds(children[0]) == 1 || CountAll(WrapperChildren(children)) == 0)
  {
    forall c | c in WrapperChildren(children)
      ensures |Schedule(c)| == CountTestCases(c)
    {
      SoundCounts(c);
    }
    AllCount(WrapperChildren(children));
    if |children| == 1 {
      OnlyTest(children);
      hide ScheduleAll, CountAll, WrapperChildren, Undecorated, Rounds, Sound;
      TimesOnce(CountAll(WrapperChildren(children)), Rounds(children[0]));
    }
  }

  lemma TimesOnce(c: int, n: int)
    ensures c * n == c <==> n == 1 || c == 0
    ensures 1 * n == 0 <==> n == 0
  {
    SameFactor(n, 1, c);
  }

  lemma OnlyTest(children: seq<Test>)
    requires |children| == 1
    ensures |ScheduleAll(children)| ==
            (if Undecorated(children[0]).Case? then 1 else |ScheduleAll(WrapperChildren(children))|) * Rounds(children[0])
    ensures Undecorated(children[0]).Case? ==> CountAll(WrapperChildren(children)) == 0
  {
    var t := children[0];
    assert children[1..] == [] && Schedule(t) + [] == Schedule(t);
    RunsInRounds(t);
  }

  /** Trees whose counts are wrong although no single condition on their own repetition says so. */
  lemma NegativeInside()
    ensures var never := Repeated(1, Case(0, "a"), -1);
            CountTestCases(Repeated(2, never, 1)) == -1 && Schedule(Repeated(2, never, 1)) == []
    ensures var children := [Repeated(1, Case(0, "a"), -1), Case(2, "b")];
            CountAll(WrapperChildren(children)) == 0 && |ScheduleAll(children)| == 1
  {
    var never, other := Repeated(1, Case(0, "a"), -1), Case(2, "b");
    assert Schedule(never) == [] && CountTestCases(never) == -1;
    assert ScheduleTimes(never, 0) == [] && ScheduleTimes(never, 1) == Schedule(never) + ScheduleTimes(never, 0);
    assert [never, other][1..] == [other] && [other][1..] == [];
    assert ScheduleAll([other]) == [other] + [] && CountAll([other]) == 1;
  }
}
