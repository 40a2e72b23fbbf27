/** The listener that collects the results of a run. */
module Collector {
  import opened Sequences
  import opened Tests
  import opened Protectors
  import opened Engine
  import opened Runs
  import opened RunProperties

  datatype TestFailure = TestFailure(test: Test, isError: bool, detail: Detail)

  /** The failures announced by a trace, in order. */
  function FailuresOf(events: seq<Event>): seq<TestFailure> {
    if events == [] then [] else
    (match events[0]
     case Failure(t, isError, detail) => [TestFailure(t, isError, detail)]
     case _ => []) + FailuresOf(events[1..])
  }

  function Errors(failures: seq<TestFailure>): nat {
    if failures == [] then 0 else
    Errors(failures[..|failures| - 1]) + if failures[|failures| - 1].isError then 1 else 0
  }

  lemma ErrorsAtMost(failures: seq<TestFailure>)
    ensures Errors(failures) <= |failures|
  {
  }

  /** The positions of the failures that are errors, or of those that are not. */
  function Marked(failures: seq<TestFailure>, isError: bool): (indexes: set<int>)
    ensures forall i :: i in indexes <==> 0 <= i < |failures| && failures[i].isError == isError
  {
    set i | 0 <= i < |failures| && failures[i].isError == isError
  }

  /** The count is that of the failures which are errors, and what is left is that of the others. */
  lemma {:induction false} ErrorsAreCounted(failures: seq<TestFailure>)
    ensures Errors(failures) == |Marked(failures, true)|
    ensures |failures| - Errors(failures) == |Marked(failures, false)|
  {
    if failures == [] {
      assert Marked(failures, true) == {} && Marked(failures, false) == {};
    } else {
      OneMoreMarked(failures, true);
      OneMoreMarked(failures, false);
      hide Marked;
      ErrorsAreCounted(failures[..|failures| - 1]);
    }
  }

  lemma OneMoreMarked(failures: seq<TestFailure>, isError: bool)
    requires failures != []
    ensures |Marked(failures, isError)| ==
            |Marked(failures[..|failures| - 1], isError)| + if failures[|failures| - 1].isError == isError then 1 else 0
  {
    var n := |failures| - 1;
    var before, now := Marked(failures[..n], isError), Marked(failures, isError);
    hide Marked;
    if failures[n].isError == isError {
      assert now == before + {n};
    } else {
      assert now == before;
    }
  }

  lemma {:induction false} FailuresConcat(a: seq<Event>, b: seq<Event>)
    ensures FailuresOf(a + b) == FailuresOf(a) + FailuresOf(b)
  {
    if a == [] {
      assert a + b == b;
    } else {
      assert (a + b)[1..] == a[1..] + b;
      FailuresConcat(a[1..], b);
    }
  }

  lemma OneCollected(e: Event)
    ensures Started([e]) == if e.StartTest? then [e.test] else []
    ensures FailuresOf([e]) == if e.Failure? then [TestFailure(e.test, e.isError, e.detail)] else []
  {
    assert [e][1..] == [];
  }

  lemma OneMoreCollected(events: seq<Event>, i: nat)
    requires i < |events|
    ensures Started(events[..i + 1]) == Started(events[..i]) + if events[i].StartTest? then [events[i].test] else []
    ensures FailuresOf(events[..i + 1]) == FailuresOf(events[..i]) +
            if events[i].Failure? then [TestFailure(events[i].test, events[i].isError, events[i].detail)] else []
  {
    assert events[..i + 1] == events[..i] + [events[i]];
    OneCollected(events[i]);
    StartedConcat(events[..i], [events[i]]);
    FailuresConcat(events[..i], [events[i]]);
  }

  class TestResultCollector {
    var success: bool
    var tests: seq<Test>
    var failures: seq<TestFailure>
    var errors: nat

    /** The counters agree with the list of failures, and success means there are none. */
    ghost predicate Valid() reads this {
      errors == Errors(failures) && (success <==> failures == [])
    }

    constructor ()
      ensures Valid() && tests == [] && failures == []
    {
      success := true;
      tests := [];
      failures := [];
      errors := 0;
    }

    method Reset()
      modifies this
      ensures Valid() && tests == [] && failures == []
    {
      success := true;
      failures := [];
      errors := 0;
      tests := [];
    }

    method OnStartTest(test: Test)
      requires Valid()
      modifies this`tests
      ensures Valid() && tests == old(tests) + [test]
    {
      tests := tests + [test];
    }

    method OnFailure(failure: TestFailure)
      requires Valid()
      modifies this`success, this`failures, this`errors
      ensures Valid() && failures == old(failures) + [failure]
    {
      success := false;
      if failure.isError {
        errors := errors + 1;
      }
      failures := failures + [failure];
      assert failures[..|failures| - 1] == old(failures);
    }

    function RunTests(): nat reads this { |tests| }

    function TestErrors(): (r: nat)
      requires Valid()
      reads this
      ensures r == |Marked(failures, true)|
    {
      ErrorsAreCounted(failures);
      errors
    }

    function TestFailures(): (r: nat)
      requires Valid()
      reads this
      ensures r == |Marked(failures, false)| && TestErrors() + r == TestFailuresTotal()
    {
      ErrorsAtMost(failures);
      ErrorsAreCounted(failures);
      |failures| - errors
    }

    function TestFailuresTotal(): nat reads this { |failures| }

    predicate WasSuccessful()
      requires Valid()
      reads this
      ensures WasSuccessful() <==> TestErrors() == 0 && TestFailures() == 0
    {
      success
    }

    /** Everything the events of a trace leave behind in the collector. */
    method Collect(events: seq<Event>)
      requires Valid()
      modifies this
      ensures Valid()
      ensures tests == old(tests) + Started(events)
      ensures failures == old(failures) + FailuresOf(events)
    {
      for i := 0 to |events|
        invariant Valid()
        invariant tests == old(tests) + Started(events[..i])
        invariant failures == old(failures) + FailuresOf(events[..i])
      {
        OneMoreCollected(events, i);
        hide Started, FailuresOf;
        match events[i] {
          case StartTest(t) => OnStartTest(t);
          case Failure(t, isError, detail) => OnFailure(TestFailure(t, isError, detail));
          case _ =>
        }
      }
      assert events[..|events|] == events;
    }
  }

  /** The failures of one executed test: at most one before tearDown, and one of tearDown. */
  function EndingFailures(t: Test, ending: Ending): seq<TestFailure> {
    match ending
    case Completed => []
    case Throws(exc) => [TestFailure(t, !exc.AssertionFailed?, exc.detail)]
  }

  function CaseFailures(v: Visit): (r: seq<TestFailure>)
    requires v.Leaf?
    ensures |r| <= 2 && forall f :: f in r ==> f.test == v.test
  {
    EndingFailures(v.test, v.setUp) +
    (if v.setUp.Completed? then EndingFailures(v.test, v.body) else []) +
    EndingFailures(v.test, v.tearDown)
  }

  lemma CallFailures(t: Test, phase: Phase, ending: Ending)
    ensures FailuresOf(CallEvents(t, phase, ending)) == EndingFailures(t, ending)
  {
    var call := [Call(t, phase, ending)];
    assert call[1..] == [] && FailuresOf(call) == [];
    if ending.Throws? {
      var f := [Failure(t, !ending.exc.AssertionFailed?, ending.exc.detail)];
      FailuresConcat(call, f);
      assert f[1..] == [];
    }
  }

  lemma LeafFailures(v: Visit)
    requires v.Leaf?
    ensures FailuresOf(Flat(v)) == CaseFailures(v)
  {
    var t := v.test;
    var a, c := CallEvents(t, SetUp, v.setUp), CallEvents(t, TearDown, v.tearDown);
    var b := if v.setUp.Completed? then CallEvents(t, RunTest, v.body) else [];
    CallFailures(t, SetUp, v.setUp);
    CallFailures(t, RunTest, v.body);
    CallFailures(t, TearDown, v.tearDown);
    FailuresConcat(a, b);
    FailuresConcat(a + b, c);
    assert [StartTest(t)][1..] == [] && [EndTest(t)][1..] == [];
    FailuresConcat([StartTest(t)], a + b + c);
    FailuresConcat([StartTest(t)] + (a + b + c), [EndTest(t)]);
  }

  lemma {:induction false} ForestFailures(vs: seq<Visit>)
    ensures |FailuresOf(FlatAll(vs))| <= 2 * |LeavesAll(vs)|
    ensures forall f :: f in FailuresOf(FlatAll(vs)) ==> f.test in LeavesAll(vs)
    decreases vs
  {
    if vs != [] {
      FailuresConcat(Flat(vs[0]), FlatAll(vs[1..]));
      ForestFailures(vs[1..]);
      match vs[0]
      case Leaf(_, _, _, _) =>
        LeafFailures(vs[0]);
      case Node(t, kids) =>
        ForestFailures(kids);
        BoundsFail(t);
        FailuresConcat([StartSuite(t)], FlatAll(kids));
        FailuresConcat([StartSuite(t)] + FlatAll(kids), [EndSuite(t)]);
    }
  }

  /** No test method that was called threw anything. */
  ghost predicate NothingThrown(events: seq<Event>) {
    forall e :: e in events && e.Call? ==> e.ending.Completed?
  }

  /** What the called test methods threw, in order. */
  function Thrown(events: seq<Event>): seq<(Test, Exc)> {
    if events == [] then [] else
    (match events[0]
     case Call(t, _, Throws(exc)) => [(t, exc)]
     case _ => []) + Thrown(events[1..])
  }

  /** One failure for each of them: an error unless an assertion failed. */
  ghost predicate Records(failures: seq<TestFailure>, thrown: seq<(Test, Exc)>) {
    |failures| == |thrown| &&
    forall i :: 0 <= i < |failures| ==>
      failures[i].test == thrown[i].0 && failures[i].detail == thrown[i].1.detail &&
      (failures[i].isError <==> !thrown[i].1.AssertionFailed?)
  }

  /**
   * After any run the failures are, one by one, what the called test methods threw. They number at most two for
   * each test run, and all belong to tests that were run.
   */
  lemma RunFailures(env: Env, t: Test, st: State)
    ensures st.trace <= Run(env, t, st).trace
    ensures var added := Run(env, t, st).trace[|st.trace|..];
            Records(FailuresOf(added), Thrown(added)) &&
            |FailuresOf(added)| <= 2 * |Started(added)| &&
            (forall f :: f in FailuresOf(added) ==> f.test in Started(added)) &&
            (FailuresOf(added) == [] <==> NothingThrown(added))
  {
    hide Run, Schedule, FlatAll, LeavesAll, FailuresOf, Started, NothingThrown, Thrown;
    var vs := RunForest(env, t, st);
    Cut(st.trace, FlatAll(vs));
    StartedFlatAll(vs);
    ForestFailures(vs);
    ForestThrown(vs);
    NoneThrown(FlatAll(vs));
  }

  /** The errors counted after a run are the throws of something other than a failed assertion, and no others. */
  lemma RunErrors(env: Env, t: Test, st: State)
    ensures st.trace <= Run(env, t, st).trace
    ensures var added := Run(env, t, st).trace[|st.trace|..];
            Errors(FailuresOf(added)) == |Assertions(Thrown(added), false)| &&
            |FailuresOf(added)| - Errors(FailuresOf(added)) == |Assertions(Thrown(added), true)|
  {
    hide Run, FailuresOf, Thrown, Errors;
    RunFailures(env, t, st);
    var added := Run(env, t, st).trace[|st.trace|..];
    ErrorsAreCounted(FailuresOf(added));
    hide Marked, Assertions;
    assert Marked(FailuresOf(added), true) == Assertions(Thrown(added), false);
    assert Marked(FailuresOf(added), false) == Assertions(Thrown(added), true);
  }

  /** The positions of the failed assertions among what was thrown, or of everything else. */
  function Assertions(thrown: seq<(Test, Exc)>, failed: bool): (indexes: set<int>)
    ensures forall i :: i in indexes <==> 0 <= i < |thrown| && thrown[i].1.AssertionFailed? == failed
  {
    set i | 0 <= i < |thrown| && thrown[i].1.AssertionFailed? == failed
  }

  lemma {:induction false} NoneThrown(events: seq<Event>)
    ensures Thrown(events) == [] <==> NothingThrown(events)
  {
    if events != [] {
      NoneThrown(events[1..]);
      assert events == [events[0]] + events[1..];
    }
  }

  lemma {:induction false} ThrownConcat(a: seq<Event>, b: seq<Event>)
    ensures Thrown(a + b) == Thrown(a) + Thrown(b)
  {
    if a == [] {
      assert a + b == b;
    } else {
      assert (a + b)[1..] == a[1..] + b;
      ThrownConcat(a[1..], b);
    }
  }

  lemma RecordsConcat(f: seq<TestFailure>, a: seq<(Test, Exc)>, g: seq<TestFailure>, b: seq<(Test, Exc)>)
    requires Records(f, a) && Records(g, b)
    ensures Records(f + g, a + b)
  {
  }

  lemma CallThrown(t: Test, phase: Phase, ending: Ending)
    ensures Records(EndingFailures(t, ending), Thrown(CallEvents(t, phase, ending)))
  {
    var call := [Call(t, phase, ending)];
    assert call[1..] == [];
    if ending.Throws? {
      var f := [Failure(t, !ending.exc.AssertionFailed?, ending.exc.detail)];
      assert f[1..] == [] && Thrown(f) == [];
      ThrownConcat(call, f);
    }
  }

  lemma LeafThrown(v: Visit)
    requires v.Leaf?
    ensures Records(CaseFailures(v), Thrown(Flat(v)))
  {
    var t := v.test;
    var a, c := CallEvents(t, SetUp, v.setUp), CallEvents(t, TearDown, v.tearDown);
    var b := if v.setUp.Completed? then CallEvents(t, RunTest, v.body) else [];
    CallThrown(t, SetUp, v.setUp);
    CallThrown(t, RunTest, v.body);
    CallThrown(t, TearDown, v.tearDown);
    BoundsThrow(t);
    ThrownAround(StartTest(t), a + b + c, EndTest(t));
    ThrownConcat(a, b);
    ThrownConcat(a + b, c);
    hide CallEvents, EndingFailures, Records, Thrown;
    NothingRecorded();
    var fb := if v.setUp.Completed? then EndingFailures(t, v.body) else [];
    RecordsConcat(EndingFailures(t, v.setUp), Thrown(a), fb, Thrown(b));
    RecordsConcat(EndingFailures(t, v.setUp) + fb, Thrown(a) + Thrown(b), EndingFailures(t, v.tearDown), Thrown(c));
  }

  lemma NothingRecorded()
    ensures Records([], []) && Thrown([]) == []
  {
  }

  /** The events around a suite or a test throw nothing. */
  lemma BoundsThrow(t: Test)
    ensures Thrown([StartSuite(t)]) == [] && Thrown([EndSuite(t)]) == []
    ensures Thrown([StartTest(t)]) == [] && Thrown([EndTest(t)]) == []
  {
    assert [StartSuite(t)][1..] == [] && [EndSuite(t)][1..] == [];
    assert [StartTest(t)][1..] == [] && [EndTest(t)][1..] == [];
  }

  lemma ThrownAround(start: Event, inner: seq<Event>, end: Event)
    requires Thrown([start]) == [] && Thrown([end]) == []
    ensures Thrown([start] + inner + [end]) == Thrown(inner)
  {
    ThrownConcat([start], inner);
    ThrownConcat([start] + inner, [end]);
    hide Thrown;
  }

  lemma {:induction false} ForestThrown(vs: seq<Visit>)
    ensures Records(FailuresOf(FlatAll(vs)), Thrown(FlatAll(vs)))
    decreases vs, 0
  {
    if vs != [] {
      VisitThrown(vs[0]);
      ForestThrown(vs[1..]);
      FailuresConcat(Flat(vs[0]), FlatAll(vs[1..]));
      ThrownConcat(Flat(vs[0]), FlatAll(vs[1..]));
      hide FailuresOf, Thrown, Flat, Records;
      RecordsConcat(FailuresOf(Flat(vs[0])), Thrown(Flat(vs[0])),
                    FailuresOf(FlatAll(vs[1..])), Thrown(FlatAll(vs[1..])));
    }
  }

  lemma {:induction false} VisitThrown(v: Visit)
    ensures Records(FailuresOf(Flat(v)), Thrown(Flat(v)))
    decreases v, 1
  {
    match v
    case Leaf(_, _, _, _) =>
      LeafFailures(v);
      LeafThrown(v);
    case Node(t, kids) =>
      ForestThrown(kids);
      BoundsFail(t);
      BoundsThrow(t);
      FailuresConcat([StartSuite(t)], FlatAll(kids));
      FailuresConcat([StartSuite(t)] + FlatAll(kids), [EndSuite(t)]);
      ThrownAround(StartSuite(t), FlatAll(kids), EndSuite(t));
      hide FailuresOf, Thrown, FlatAll, Records;
  }

  /** The events around a suite carry no failures. */
  lemma BoundsFail(t: Test)
    ensures FailuresOf([StartSuite(t)]) == [] && FailuresOf([EndSuite(t)]) == []
  {
    assert [StartSuite(t)][1..] == [] && [EndSuite(t)][1..] == [];
  }
}
