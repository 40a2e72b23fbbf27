/** The XML report of a whole run. */
module RunReports {
  import opened Tests
  import opened Engine
  import opened RunProperties
  import opened Collector
  import opened ReportProperties

  /** Some listed position is a run of this test. */
  ghost predicate ListedAsFailed(tests: seq<Test>, failures: seq<TestFailure>, t: Test) {
    exists i: nat :: i < |tests| && i in Listed(tests, failures, true) && tests[i] == t
  }

  lemma FailureIsListed(tests: seq<Test>, failures: seq<TestFailure>, f: TestFailure)
    requires f in failures && f.test in tests
    ensures ListedAsFailed(tests, failures, f.test)
  {
    hide Listed;
    ReportPartitions(tests, failures);
    var i: nat :| i < |tests| && tests[i] == f.test;
    assert HasFailure(failures, tests[i]);
    assert i in Listed(tests, failures, true);
  }

  lemma FirstIn(s: seq<nat>)
    ensures s == [] || s[0] in s
  {
  }

  lemma NothingListed(tests: seq<Test>)
    ensures Listed(tests, [], true) == []
  {
    hide Listed;
    ReportPartitions(tests, []);
    FirstIn(Listed(tests, [], true));
  }

  /**
   * The report of any run lists a test as failed for every recorded failure, so its list of failed tests is
   * empty exactly when nothing that was called threw; and it counts at most two failures for each test.
   */
  lemma ReportOfRun(env: Env, t: Test, trace: seq<Event>)
    requires trace == Run(env, t, State([], false)).trace
    ensures |FailuresOf(trace)| <= 2 * |Started(trace)|
    ensures forall f :: f in FailuresOf(trace) ==> ListedAsFailed(Started(trace), FailuresOf(trace), f.test)
    ensures Listed(Started(trace), FailuresOf(trace), true) == [] <==> NothingThrown(trace)
  {
    hide Run, Started, FailuresOf, NothingThrown, Listed;
    RunFailures(env, t, State([], false));
    assert trace[0..] == trace;
    var tests, failures := Started(trace), FailuresOf(trace);
    forall f | f in failures
      ensures ListedAsFailed(tests, failures, f.test)
    {
      FailureIsListed(tests, failures, f);
    }
    if failures == [] {
      NothingListed(tests);
    } else {
      assert failures[0] in failures;
      assert ListedAsFailed(tests, failures, failures[0].test);
    }
  }
}
