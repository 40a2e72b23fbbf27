/** The two lists of most recently run tests: one keeps twenty, the other keeps all. */
module MostRecent {
  import opened Sequences
  import opened Tests

  const MAX_RECENT_TEST := 20

  function RemoveFirst(list: seq<Test>, t: Test): (r: seq<Test>)
    ensures |r| <= |list| <= |r| + 1
  {
    if list == [] then [] else if list[0] == t then list[1..] else [list[0]] + RemoveFirst(list[1..], t)
  }

  /** The test comes first, and nowhere else if it was there once. */
  function Remember(list: seq<Test>, t: Test): seq<Test> { [t] + RemoveFirst(list, t) }

  /** The unbounded list after a history of runs. */
  function Recent(history: seq<Test>): seq<Test> {
    if history == [] then [] else Remember(Recent(history[..|history| - 1]), history[|history| - 1])
  }

  function Truncate(list: seq<Test>): seq<Test> {
    if |list| > MAX_RECENT_TEST then list[..MAX_RECENT_TEST] + list[MAX_RECENT_TEST + 1..] else list
  }

  /** The bounded list after the same history: one entry too many is removed each time. */
  function Bounded(history: seq<Test>): seq<Test> {
    if history == [] then [] else
    Truncate(Remember(Bounded(history[..|history| - 1]), history[|history| - 1]))
  }

  /** Taking out the entry a search from the front stopped at removes the first occurrence. */
  lemma RemoveFound(list: seq<Test>, i: nat, t: Test)
    requires i <= |list| && (i < |list| ==> list[i] == t)
    requires RemoveFirst(list, t) == list[..i] + RemoveFirst(list[i..], t)
    ensures RemoveFirst(list, t) == if i < |list| then list[..i] + list[i + 1..] else list
  {
    if i < |list| {
      assert list[i..][1..] == list[i + 1..];
    } else {
      assert list[..i] == list && list[i..] == [];
    }
  }

  /** A search that goes past an entry keeps it. */
  lemma RemoveLater(list: seq<Test>, i: nat, t: Test)
    requires i < |list| && list[i] != t
    ensures list[..i] + RemoveFirst(list[i..], t) == list[..i + 1] + RemoveFirst(list[i + 1..], t)
  {
    assert list[i..][1..] == list[i + 1..];
    assert list[..i + 1] == list[..i] + [list[i]];
    Concat3(list[..i], [list[i]], RemoveFirst(list[i + 1..], t));
  }

  class BoundedRecentTests {
    var tests: seq<Test>

    constructor ()
      ensures tests == Bounded([])
    {
      tests := [];
    }

    method SetTestToRun(test: Test, ghost history: seq<Test>)
      requires tests == Bounded(history)
      modifies this
      ensures tests == Bounded(history + [test])
    {
      assert (history + [test])[..|history|] == history;
      var i := 0;
      while i < |tests| && tests[i] != test
        invariant i <= |tests|
        invariant tests == old(tests)
        invariant RemoveFirst(tests, test) == tests[..i] + RemoveFirst(tests[i..], test)
      {
        RemoveLater(tests, i, test);
        i := i + 1;
      }
      RemoveFound(tests, i, test);
      if i < |tests| {
        tests := tests[..i] + tests[i + 1..];
      }
      assert tests == RemoveFirst(old(tests), test);
      tests := [test] + tests;
      if |tests| > MAX_RECENT_TEST {
        tests := tests[..MAX_RECENT_TEST] + tests[MAX_RECENT_TEST + 1..];
      }
    }
  }

  /** The tests of a list of names and tests. */
  function TestsOf(runs: seq<(string, Test)>): seq<Test> { seq(|runs|, i requires 0 <= i < |runs| => runs[i].1) }

  lemma TestsWithout(runs: seq<(string, Test)>, i: nat)
    requires i < |runs|
    ensures TestsOf(runs[..i] + runs[i + 1..]) == TestsOf(runs)[..i] + TestsOf(runs)[i + 1..]
  {
  }

  class AllRecentTests {
    var runs: seq<(string, Test)>

    ghost function RunTests(): seq<Test> reads this { TestsOf(runs) }

    ghost predicate Valid() reads this { forall i :: 0 <= i < |runs| ==> runs[i].0 == Name(runs[i].1) }

    constructor ()
      ensures Valid() && RunTests() == Recent([])
    {
      runs := [];
    }

    method SetLastTestRun(test: Test, ghost history: seq<Test>)
      requires Valid() && RunTests() == Recent(history)
      modifies this
      ensures Valid() && RunTests() == Recent(history + [test])
    {
      assert (history + [test])[..|history|] == history;
      ghost var list := RunTests();
      Forget(test);
      runs := [(Name(test), test)] + runs;
      assert RunTests() == [test] + RemoveFirst(list, test);
    }

    /** The loop that erases the entry of a test. */
    method Forget(test: Test)
      requires Valid()
      modifies this
      ensures Valid() && RunTests() == RemoveFirst(old(RunTests()), test)
    {
      ghost var list := RunTests();
      hide RemoveFirst;
      var i := 0;
      assert list[..0] + RemoveFirst(list[0..], test) == RemoveFirst(list, test) by {
        assert list[0..] == list;
      }
      while i < |runs| && runs[i].1 != test
        invariant i <= |runs| && runs == old(runs)
        invariant RemoveFirst(list, test) == list[..i] + RemoveFirst(list[i..], test)
      {
        RemoveLater(list, i, test);
        i := i + 1;
      }
      RemoveFound(list, i, test);
      if i < |runs| {
        TestsWithout(runs, i);
        runs := runs[..i] + runs[i + 1..];
      }
    }
  }

  predicate Distinct(list: seq<Test>) { forall i, j :: 0 <= i < j < |list| ==> list[i] != list[j] }

  lemma {:induction false} RemoveFirstDistinct(list: seq<Test>, t: Test)
    requires Distinct(list)
    ensures Distinct(RemoveFirst(list, t))
    ensures forall x :: x in RemoveFirst(list, t) <==> x in list && x != t
  {
    if list != [] {
      var tail := list[1..];
      assert list == [list[0]] + tail;
      assert list[0] !in tail;
      RemoveFirstDistinct(tail, t);
      if list[0] != t {
        var r := RemoveFirst(tail, t);
        assert forall j :: 0 <= j < |r| ==> r[j] in r;
      }
    }
  }

  /** The position after the last use of a test: 0 if there was none. */
  function LastUse(history: seq<Test>, t: Test): nat {
    if history == [] then 0
    else if history[|history| - 1] == t then |history|
    else LastUse(history[..|history| - 1], t)
  }

  /** Later in the list means used last earlier in the history. */
  predicate ByLatestUse(list: seq<Test>, history: seq<Test>) {
    forall i, j :: 0 <= i < j < |list| ==> LastUse(history, list[i]) > LastUse(history, list[j])
  }

  lemma {:induction false} LastUseBound(history: seq<Test>, t: Test)
    ensures LastUse(history, t) <= |history|
  {
    if history != [] && history[|history| - 1] != t {
      LastUseBound(history[..|history| - 1], t);
    }
  }

  /** Removing an element keeps the order of the others. */
  lemma {:induction false} RemoveKeepsOrder(list: seq<Test>, t: Test, history: seq<Test>)
    requires Distinct(list) && ByLatestUse(list, history)
    ensures ByLatestUse(RemoveFirst(list, t), history)
  {
    if list != [] && list[0] != t {
      RemoveKeepsOrder(list[1..], t, history);
      RemoveFirstDistinct(list[1..], t);
      var r := RemoveFirst(list[1..], t);
      forall j | 0 <= j < |r|
        ensures LastUse(history, list[0]) > LastUse(history, r[j])
      {
        assert r[j] in list[1..];
        var k :| 0 <= k < |list[1..]| && list[1..][k] == r[j];
        assert list[k + 1] == r[j];
      }
    }
  }

  /** For every history the unbounded list holds each test run once, latest use first. */
  lemma {:induction false} RecentByLatestUse(history: seq<Test>)
    ensures Distinct(Recent(history)) && ByLatestUse(Recent(history), history)
    ensures forall t :: t in Recent(history) <==> t in history
  {
    if history != [] {
      var before, t := history[..|history| - 1], history[|history| - 1];
      var list := Recent(before);
      RecentByLatestUse(before);
      RemoveFirstDistinct(list, t);
      RemoveKeepsOrder(list, t, before);
      assert history == before + [t];
      var r := RemoveFirst(list, t);
      forall i, j | 0 <= i < j < |Remember(list, t)|
        ensures LastUse(history, Remember(list, t)[i]) > LastUse(history, Remember(list, t)[j])
      {
        var later := Remember(list, t)[j];
        assert later == r[j - 1] && later in r;
        LastUseBound(before, later);
        if i > 0 {
          assert Remember(list, t)[i] == r[i - 1] && r[i - 1] in r;
        }
      }
    }
  }

  function FirstTwenty(list: seq<Test>): seq<Test> {
    if |list| <= MAX_RECENT_TEST then list else list[..MAX_RECENT_TEST]
  }

  /** Removing from a list and from its beginning agree at the beginning. */
  lemma {:induction false} RemoveFromPrefix(list: seq<Test>, n: nat, t: Test)
    requires n <= |list|
    ensures RemoveFirst(list[..n], t) <= RemoveFirst(list, t)
    ensures |RemoveFirst(list[..n], t)| == if t in list[..n] then n - 1 else n
    ensures t !in list[..n] ==> RemoveFirst(list[..n], t) == list[..n]
  {
    if n > 0 {
      assert list[..n][1..] == list[1..][..n - 1];
      assert list[..n] == [list[0]] + list[1..][..n - 1];
      if list[0] != t {
        RemoveFromPrefix(list[1..], n - 1, t);
      }
    }
  }

  /** For every history the bounded list is the beginning of the unbounded one. */
  lemma {:induction false} BoundedIsPrefix(history: seq<Test>)
    ensures Bounded(history) == if |Recent(history)| <= 20 then Recent(history) else Recent(history)[..20]
  {
    if history != [] {
      var before, t := history[..|history| - 1], history[|history| - 1];
      var all := Recent(before);
      BoundedIsPrefix(before);
      var n := |FirstTwenty(all)|;
      assert FirstTwenty(all) == all[..n] && all[..|all|] == all;
      RemoveFromPrefix(all, n, t);
      var some, whole := Remember(all[..n], t), Remember(all, t);
      assert some <= whole;
      if n < |all| {
        assert n == MAX_RECENT_TEST;
        RemoveFromPrefix(all, |all|, t);
      }
    }
  }

  /** So the bounded list, too, is free of repetitions, by latest use, and never longer than twenty. */
  lemma BoundedByLatestUse(history: seq<Test>)
    ensures |Bounded(history)| <= 20
    ensures Distinct(Bounded(history)) && ByLatestUse(Bounded(history), history)
  {
    BoundedIsPrefix(history);
    RecentByLatestUse(history);
  }
}
