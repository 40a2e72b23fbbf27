/** What every run of every test tree has in common, whatever the tests and listeners do. */
module Runs {
  import opened Sequences
  import opened Tests
  import opened Protectors
  import opened Engine

  /** One executed test, with how its methods ended, or one entered suite. */
  datatype Visit =
    | Leaf(test: Test, setUp: Ending, body: Ending, tearDown: Ending)
    | Node(test: Test, kids: seq<Visit>)

  /** A call of a test method and the failure it causes when it throws. */
  function CallEvents(t: Test, phase: Phase, ending: Ending): seq<Event> {
    [Call(t, phase, ending)] +
    match ending
    case Completed => []
    case Throws(exc) => [Failure(t, !exc.AssertionFailed?, exc.detail)]
  }

  /** setUp first and tearDown last; the test itself only after a setUp that completed. */
  function CaseEvents(t: Test, setUp: Ending, body: Ending, tearDown: Ending): seq<Event> {
    CallEvents(t, SetUp, setUp) +
    (if setUp.Completed? then CallEvents(t, RunTest, body) else []) +
    CallEvents(t, TearDown, tearDown)
  }

  /** The events of an executed forest, in order. */
  function Flat(v: Visit): seq<Event>
    decreases v
  {
    match v
    case Leaf(t, setUp, body, tearDown) => [StartTest(t)] + CaseEvents(t, setUp, body, tearDown) + [EndTest(t)]
    case Node(t, kids) => [StartSuite(t)] + FlatAll(kids) + [EndSuite(t)]
  }

  function FlatAll(vs: seq<Visit>): seq<Event>
    decreases vs
  {
    if vs == [] then [] else Flat(vs[0]) + FlatAll(vs[1..])
  }

  /** The calls of one test, and where it ends early. */
  lemma CaseSpelled(t: Test, exc: Exc, body: Ending)
    ensures Flat(Leaf(t, Completed, Completed, Completed)) ==
            [StartTest(t), Call(t, SetUp, Completed), Call(t, RunTest, Completed), Call(t, TearDown, Completed), EndTest(t)]
    ensures Flat(Leaf(t, Completed, Throws(exc), Completed)) ==
            [StartTest(t), Call(t, SetUp, Completed), Call(t, RunTest, Throws(exc)),
             Failure(t, !exc.AssertionFailed?, exc.detail), Call(t, TearDown, Completed), EndTest(t)]
    ensures Flat(Leaf(t, Throws(exc), body, Completed)) ==
            [StartTest(t), Call(t, SetUp, Throws(exc)), Failure(t, !exc.AssertionFailed?, exc.detail),
             Call(t, TearDown, Completed), EndTest(t)]
    ensures Flat(Leaf(t, Completed, Completed, Throws(exc))) ==
            [StartTest(t), Call(t, SetUp, Completed), Call(t, RunTest, Completed), Call(t, TearDown, Throws(exc)),
             Failure(t, !exc.AssertionFailed?, exc.detail), EndTest(t)]
  {
  }

  lemma {:induction false} FlatConcat(vs: seq<Visit>, ws: seq<Visit>)
    ensures FlatAll(vs + ws) == FlatAll(vs) + FlatAll(ws)
  {
    if vs == [] {
      assert vs + ws == ws;
    } else {
      assert (vs + ws)[1..] == vs[1..] + ws;
      FlatConcat(vs[1..], ws);
    }
  }

  /** The executed test cases, in order. */
  function Leaves(v: Visit): seq<Test>
    decreases v
  {
    match v
    case Leaf(t, _, _, _) => [t]
    case Node(_, kids) => LeavesAll(kids)
  }

  function LeavesAll(vs: seq<Visit>): seq<Test>
    decreases vs
  {
    if vs == [] then [] else Leaves(vs[0]) + LeavesAll(vs[1..])
  }

  lemma {:induction false} LeavesConcat(vs: seq<Visit>, ws: seq<Visit>)
    ensures LeavesAll(vs + ws) == LeavesAll(vs) + LeavesAll(ws)
  {
    if vs == [] {
      assert vs + ws == ws;
    } else {
      assert (vs + ws)[1..] == vs[1..] + ws;
      LeavesConcat(vs[1..], ws);
    }
  }

  /** The test cases a run executes when nobody raises stop. */
  function Schedule(t: Test): seq<Test>
    decreases t, 0
  {
    match t
    case Case(_, _) => [t]
    case Suite(_, _, children) => ScheduleAll(children)
    case Decorator(_, inner) => Schedule(inner)
    case Repeated(_, inner, times) => ScheduleTimes(inner, times)
  }

  function ScheduleAll(ts: seq<Test>): seq<Test>
    decreases ts, 0
  {
    if ts == [] then [] else Schedule(ts[0]) + ScheduleAll(ts[1..])
  }

  function ScheduleTimes(t: Test, n: int): seq<Test>
    decreases t, 1, n
  {
    if n <= 0 then [] else Schedule(t) + ScheduleTimes(t, n - 1)
  }

  /**
   * The run from a to b executed the forest vs, a prefix of the scheduled tests,
   * and all of them when stop was not raised.
   */
  ghost predicate Executes(a: State, b: State, vs: seq<Visit>, scheduled: seq<Test>) {
    b.trace == a.trace + FlatAll(vs) && LeavesAll(vs) <= scheduled &&
    (a.stop ==> b.stop) && (!b.stop ==> LeavesAll(vs) == scheduled)
  }

  lemma ExecutesThen(a: State, b: State, c: State, vs: seq<Visit>, ws: seq<Visit>, s: seq<Test>, t: seq<Test>)
    requires !b.stop && Executes(a, b, vs, s) && Executes(b, c, ws, t)
    ensures Executes(a, c, vs + ws, s + t)
  {
    hide FlatAll, LeavesAll;
    FlatConcat(vs, ws);
    LeavesConcat(vs, ws);
    Concat3(a.trace, FlatAll(vs), FlatAll(ws));
    assert LeavesAll(vs) + LeavesAll(ws) <= s + t;
  }

  lemma ExecutesLess(a: State, b: State, vs: seq<Visit>, s: seq<Test>, t: seq<Test>)
    requires b.stop && Executes(a, b, vs, s)
    ensures Executes(a, b, vs, s + t)
  {
  }

  lemma ExecutesNothing(a: State, s: seq<Test>)
    requires a.stop || s == []
    ensures Executes(a, a, [], s)
  {
    assert a.trace + [] == a.trace;
  }

  lemma RunCaseForest(env: Env, t: Test, st: State) returns (v: Visit)
    requires t.Case?
    ensures v.Leaf? && v.test == t
    ensures RunCase(env, t, st).trace == st.trace + Flat(v)
    ensures st.stop ==> RunCase(env, t, st).stop
  {
    hide Protect, CallEvents;
    var started := Emit(env, st, StartTest(t));
    var s := ProtectCalls(env, t, SetUp, started);
    var setUp := Protect(env, t, SetUp, started);
    var body, b := setUp, s;
    var inside := [];
    if s.Completed? {
      b := ProtectCalls(env, t, RunTest, setUp.world);
      body := Protect(env, t, RunTest, setUp.world);
      inside := CallEvents(t, RunTest, b);
    }
    assert body.world.trace == setUp.world.trace + inside;
    var d := ProtectCalls(env, t, TearDown, body.world);
    var tornDown := Protect(env, t, TearDown, body.world);
    v := Leaf(t, s, b, d);
    CaseTrace(st.trace, StartTest(t), CallEvents(t, SetUp, s), inside, CallEvents(t, TearDown, d), EndTest(t));
  }

  lemma CaseTrace(before: seq<Event>, start: Event, a: seq<Event>, b: seq<Event>, c: seq<Event>, end: Event)
    ensures before + [start] + a + b + c + [end] == before + ([start] + (a + b + c) + [end])
  {
  }

  lemma ProtectCalls(env: Env, t: Test, phase: Phase, st: State) returns (ending: Ending)
    ensures var ran := Protect(env, t, phase, st);
            ran.world.trace == st.trace + CallEvents(t, phase, ending) && (st.stop ==> ran.world.stop) &&
            ran.outcome == Returned(ending.Completed?)
  {
    ProtectIs(env, t, phase, st);
    ending := env.behaves(st.trace, t, phase);
  }

  lemma OneVisit(v: Visit)
    ensures FlatAll([v]) == Flat(v) && LeavesAll([v]) == Leaves(v)
  {
    assert [v][1..] == [];
    assert Flat(v) + [] == Flat(v) && Leaves(v) + [] == Leaves(v);
  }

  lemma SuiteTrace(before: seq<Event>, start: Event, inner: seq<Event>, end: Event)
    ensures before + [start] + inner + [end] == before + ([start] + inner + [end])
  {
  }

  /** Every run, from any state, executes a forest of visits. */
  lemma {:induction false} RunForest(env: Env, t: Test, st: State) returns (vs: seq<Visit>)
    ensures Executes(st, Run(env, t, st), vs, Schedule(t))
    decreases t, 0
  {
    hide RunCase, RunChildren, FlatAll, LeavesAll;
    match t
    case Case(_, _) =>
      var v := RunCaseForest(env, t, st);
      vs := [v];
      OneVisit(v);
    case Suite(_, _, children) =>
      var started := Emit(env, st, StartSuite(t));
      var kids := ChildrenForest(env, children, started);
      vs := [Node(t, kids)];
      OneVisit(Node(t, kids));
      SuiteTrace(st.trace, StartSuite(t), FlatAll(kids), EndSuite(t));
    case Decorator(_, inner) =>
      vs := RunForest(env, inner, st);
    case Repeated(_, inner, times) =>
      vs := TimesForest(env, inner, times, st);
  }

  lemma {:induction false} ChildrenForest(env: Env, ts: seq<Test>, st: State) returns (vs: seq<Visit>)
    ensures Executes(st, RunChildren(env, ts, st), vs, ScheduleAll(ts))
    decreases ts, 0
  {
    hide Executes, Run, Schedule;
    if ts == [] || st.stop {
      vs := [];
      ExecutesNothing(st, ScheduleAll(ts));
    } else {
      vs := RunForest(env, ts[0], st);
      var next := Run(env, ts[0], st);
      if next.stop {
        ExecutesLess(st, next, vs, Schedule(ts[0]), ScheduleAll(ts[1..]));
      } else {
        var more := ChildrenForest(env, ts[1..], next);
        ExecutesThen(st, next, RunChildren(env, ts[1..], next), vs, more, Schedule(ts[0]), ScheduleAll(ts[1..]));
        vs := vs + more;
      }
    }
  }

  lemma {:induction false} TimesForest(env: Env, t: Test, n: int, st: State) returns (vs: seq<Visit>)
    ensures Executes(st, RunTimes(env, t, n, st), vs, ScheduleTimes(t, n))
    decreases t, 1, n
  {
    hide Executes, Run, Schedule;
    if n <= 0 || st.stop {
      vs := [];
      ExecutesNothing(st, ScheduleTimes(t, n));
    } else {
      vs := RunForest(env, t, st);
      var next := Run(env, t, st);
      if next.stop {
        ExecutesLess(st, next, vs, Schedule(t), ScheduleTimes(t, n - 1));
      } else {
        var more := TimesForest(env, t, n - 1, next);
        ExecutesThen(st, next, RunTimes(env, t, n - 1, next), vs, more, Schedule(t), ScheduleTimes(t, n - 1));
        vs := vs + more;
      }
    }
  }
}
