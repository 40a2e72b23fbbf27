/** The clocker: it rebuilds the tree of executed tests from the stream of their starts and ends. */
module Clocker {
  import opened Sequences
  import opened Tests

  datatype TestInfo = TestInfo(path: seq<Test>, isSuite: bool, children: seq<nat>, elapsed: real)

  /** The fields of the model. The end of stack is its top. */
  datatype Clock = Clock(
    path: seq<Test>, count: nat, total: real, indexes: map<Test, nat>, stack: seq<nat>, tests: seq<TestInfo>)

  const NEW_CLOCK := Clock([], 0, 0.0, map[], [], [])

  /** What the listener passes on; an exit comes with the time its timer then shows. */
  datatype Signal = Enter(test: Test, isSuite: bool) | Exit(test: Test, isSuite: bool, elapsed: real)

  ghost predicate Consistent(c: Clock) {
    |c.path| == |c.stack| && forall k :: 0 <= k < |c.stack| ==> c.stack[k] < |c.tests|
  }

  /** The entry on top of the stack gets more children. */
  function Adopt(tests: seq<TestInfo>, stack: seq<nat>, children: seq<nat>): seq<TestInfo> {
    if stack == [] || stack[|stack| - 1] >= |tests| then tests else
    var top := stack[|stack| - 1];
    tests[top := tests[top].(children := tests[top].children + children)]
  }

  /** Inserting never replaces. */
  function Insert(m: map<Test, nat>, t: Test, i: nat): map<Test, nat> {
    if t in m then m else m[t := i]
  }

  function Step(c: Clock, s: Signal): Clock {
    match s
    case Enter(t, isSuite) =>
      var index := |c.tests|;
      Clock(c.path + [t], c.count + (if isSuite then 0 else 1), c.total, Insert(c.indexes, t, index),
            c.stack + [index],
            Adopt(c.tests, c.stack, [index]) + [TestInfo(c.path + [t], isSuite, [], 0.0)])
    case Exit(t, isSuite, elapsed) =>
      if c.stack == [] || c.stack[|c.stack| - 1] >= |c.tests| || c.path == [] then c else
      var top := c.stack[|c.stack| - 1];
      var tests := c.tests[top := c.tests[top].(elapsed := elapsed)];
      c.(tests := tests, stack := c.stack[..|c.stack| - 1], path := c.path[..|c.path| - 1],
         total := c.total + if isSuite then 0.0 else tests[|tests| - 1].elapsed)
  }

  /** An entry adds a record, an index for a new test, and a child for the open suite; all other records stay. */
  lemma EntryExactly(c: Clock, t: Test, isSuite: bool)
    requires Consistent(c)
    ensures var d, n := Step(c, Enter(t, isSuite)), |c.tests|;
            d.path == c.path + [t] && d.stack == c.stack + [n] && d.total == c.total &&
            d.count == (if isSuite then c.count else c.count + 1) &&
            |d.tests| == n + 1 && d.tests[n] == TestInfo(c.path + [t], isSuite, [], 0.0) &&
            (forall k :: 0 <= k < n && (c.stack == [] || k != c.stack[|c.stack| - 1]) ==> d.tests[k] == c.tests[k]) &&
            (c.stack != [] ==>
               var top := c.stack[|c.stack| - 1];
               d.tests[top] == c.tests[top].(children := c.tests[top].children + [n]))
    ensures var d := Step(c, Enter(t, isSuite));
            t in d.indexes && d.indexes[t] == (if t in c.indexes then c.indexes[t] else |c.tests|) &&
            forall u :: u != t ==> (u in d.indexes <==> u in c.indexes) && (u in c.indexes ==> d.indexes[u] == c.indexes[u])
  {
  }

  /** An exit times the record on top of the stack; to the total it adds, for a test case, the time of the last record. */
  lemma ExitExactly(c: Clock, t: Test, isSuite: bool, elapsed: real)
    requires Consistent(c) && c.stack != []
    ensures var d, n, top := Step(c, Exit(t, isSuite, elapsed)), |c.tests|, c.stack[|c.stack| - 1];
            d.path + [c.path[|c.path| - 1]] == c.path && d.stack + [top] == c.stack &&
            d.count == c.count && d.indexes == c.indexes && |d.tests| == n &&
            (forall k :: 0 <= k < n ==> d.tests[k] == if k == top then c.tests[k].(elapsed := elapsed) else c.tests[k]) &&
            d.total == (if isSuite then c.total else if top == n - 1 then c.total + elapsed else c.total + c.tests[n - 1].elapsed)
  {
  }

  /** The index recorded for a test, or -1. */
  function IndexIn(c: Clock, t: Test): int {
    if t in c.indexes then c.indexes[t] else -1
  }

  function Play(c: Clock, signals: seq<Signal>): Clock
    decreases signals
  {
    if signals == [] then c else Play(Step(c, signals[0]), signals[1..])
  }

  lemma {:induction false} PlayConcat(c: Clock, a: seq<Signal>, b: seq<Signal>)
    ensures Play(c, a + b) == Play(Play(c, a), b)
    decreases a
  {
    if a == [] {
      assert a + b == b;
    } else {
      assert (a + b)[1..] == a[1..] + b;
      PlayConcat(Step(c, a[0]), a[1..], b);
    }
  }

  class ClockerModel {
    var currentPath: seq<Test>
    var testCaseCount: nat
    var totalTestCaseTime: real
    var testToIndexes: map<Test, nat>
    var testIndexes: seq<nat>
    var tests: seq<TestInfo>

    ghost function Current(): Clock reads this {
      Clock(currentPath, testCaseCount, totalTestCaseTime, testToIndexes, testIndexes, tests)
    }

    constructor ()
      ensures Current() == NEW_CLOCK
    {
      currentPath := [];
      testCaseCount := 0;
      totalTestCaseTime := 0.0;
      testToIndexes := map[];
      testIndexes := [];
      tests := [];
    }

    method EnterTest(test: Test, isSuite: bool)
      requires Consistent(Current())
      modifies this
      ensures Consistent(Current()) && Current() == Step(old(Current()), Enter(test, isSuite))
    {
      currentPath := currentPath + [test];
      var testIndex := |tests|;
      if testIndexes != [] {
        var top := testIndexes[|testIndexes| - 1];
        tests := tests[top := tests[top].(children := tests[top].children + [testIndex])];
      }
      testIndexes := testIndexes + [testIndex];
      if test !in testToIndexes {
        testToIndexes := testToIndexes[test := testIndex];
      }
      tests := tests + [TestInfo(currentPath, isSuite, [], 0.0)];
      if !isSuite {
        testCaseCount := testCaseCount + 1;
      }
    }

    method ExitTest(test: Test, isSuite: bool, elapsed: real)
      requires Consistent(Current()) && testIndexes != []
      modifies this
      ensures Consistent(Current()) && Current() == Step(old(Current()), Exit(test, isSuite, elapsed))
    {
      var top := testIndexes[|testIndexes| - 1];
      tests := tests[top := tests[top].(elapsed := elapsed)];
      if !isSuite {
        totalTestCaseTime := totalTestCaseTime + tests[|tests| - 1].elapsed;
      }
      currentPath := currentPath[..|currentPath| - 1];
      testIndexes := testIndexes[..|testIndexes| - 1];
    }

    function IndexOf(test: Test): (r: int)
      reads this
      ensures r == IndexIn(Current(), test)
    {
      if test in testToIndexes then testToIndexes[test] else -1
    }

    function ChildCountFor(testIndex: nat): nat
      requires testIndex < |tests|
      reads this
    {
      |tests[testIndex].children|
    }

    function ChildAtFor(testIndex: nat, childIndex: nat): nat
      requires testIndex < |tests| && childIndex < |tests[testIndex].children|
      reads this
    {
      tests[testIndex].children[childIndex]
    }
  }

  // ---------- executed forests with their times ----------

  datatype Timed = Timed(test: Test, isSuite: bool, kids: seq<Timed>, elapsed: real)

  /** Only suites have anything inside. */
  predicate Proper(v: Timed)
    decreases v
  {
    (v.isSuite || v.kids == []) && forall k :: k in v.kids ==> Proper(k)
  }

  function Signals(v: Timed): seq<Signal>
    decreases v
  {
    [Enter(v.test, v.isSuite)] + SignalsAll(v.kids) + [Exit(v.test, v.isSuite, v.elapsed)]
  }

  function SignalsAll(vs: seq<Timed>): seq<Signal>
    decreases vs
  {
    if vs == [] then [] else Signals(vs[0]) + SignalsAll(vs[1..])
  }

  function Size(v: Timed): nat
    decreases v
  {
    1 + SizeAll(v.kids)
  }

  function SizeAll(vs: seq<Timed>): nat
    decreases vs
  {
    if vs == [] then 0 else Size(vs[0]) + SizeAll(vs[1..])
  }

  /** The indexes at which the trees of a forest start when its first entry is at base. */
  function Roots(vs: seq<Timed>, base: nat): seq<nat>
    decreases vs
  {
    if vs == [] then [] else [base] + Roots(vs[1..], base + Size(vs[0]))
  }

  /** One entry for each node, in pre-order. */
  function Infos(v: Timed, path: seq<Test>, base: nat): seq<TestInfo>
    decreases v
  {
    [TestInfo(path + [v.test], v.isSuite, Roots(v.kids, base + 1), v.elapsed)] +
    InfosAll(v.kids, path + [v.test], base + 1)
  }

  function InfosAll(vs: seq<Timed>, path: seq<Test>, base: nat): (r: seq<TestInfo>)
    decreases vs
  {
    if vs == [] then [] else Infos(vs[0], path, base) + InfosAll(vs[1..], path, base + Size(vs[0]))
  }

  lemma {:induction false} InfosSize(v: Timed, path: seq<Test>, base: nat)
    ensures |Infos(v, path, base)| == Size(v)
    decreases v
  {
    InfosAllSize(v.kids, path + [v.test], base + 1);
  }

  lemma {:induction false} InfosAllSize(vs: seq<Timed>, path: seq<Test>, base: nat)
    ensures |InfosAll(vs, path, base)| == SizeAll(vs)
    decreases vs
  {
    if vs != [] {
      InfosSize(vs[0], path, base);
      InfosAllSize(vs[1..], path, base + Size(vs[0]));
    }
  }

  /** The number of test cases, and the time they took together. */
  function Cases(infos: seq<TestInfo>): nat {
    if infos == [] then 0 else (if infos[0].isSuite then 0 else 1) + Cases(infos[1..])
  }

  function CaseTime(infos: seq<TestInfo>): real {
    if infos == [] then 0.0 else (if infos[0].isSuite then 0.0 else infos[0].elapsed) + CaseTime(infos[1..])
  }

  lemma {:induction false} CasesConcat(a: seq<TestInfo>, b: seq<TestInfo>)
    ensures Cases(a + b) == Cases(a) + Cases(b) && CaseTime(a + b) == CaseTime(a) + CaseTime(b)
  {
    if a == [] {
      assert a + b == b;
    } else {
      assert (a + b)[1..] == a[1..] + b;
      CasesConcat(a[1..], b);
    }
  }

  /** The map from a test to an index, extended by the entries from base on. */
  function Index(m: map<Test, nat>, infos: seq<TestInfo>, base: nat): map<Test, nat>
    requires HavePaths(infos)
    decreases infos
  {
    if infos == [] then m else
    Index(Insert(m, infos[0].path[|infos[0].path| - 1], base), infos[1..], base + 1)
  }

  lemma {:induction false} IndexConcat(m: map<Test, nat>, a: seq<TestInfo>, b: seq<TestInfo>, base: nat)
    requires HavePaths(a) && HavePaths(b)
    ensures Index(m, a + b, base) == Index(Index(m, a, base), b, base + |a|)
    decreases a
  {
    if a == [] {
      assert a + b == b;
    } else {
      assert (a + b)[1..] == a[1..] + b;
      IndexConcat(Insert(m, a[0].path[|a[0].path| - 1], base), a[1..], b, base + 1);
    }
  }

  predicate HavePaths(infos: seq<TestInfo>) { forall k :: 0 <= k < |infos| ==> infos[k].path != [] }

  lemma {:induction false} PathsNotEmpty(vs: seq<Timed>, path: seq<Test>, base: nat)
    ensures HavePaths(InfosAll(vs, path, base))
    decreases vs
  {
    if vs != [] {
      PathsNotEmpty(vs[0].kids, path + [vs[0].test], base + 1);
      PathsNotEmpty(vs[1..], path, base + Size(vs[0]));
      var v := vs[0];
      var info := TestInfo(path + [v.test], v.isSuite, Roots(v.kids, base + 1), v.elapsed);
      assert Infos(v, path, base) == [info] + InfosAll(v.kids, path + [v.test], base + 1);
    }
  }

  /** What replaying a forest adds: one entry for each node, and its roots as children of the open suite. */
  function Grown(c: Clock, roots: seq<nat>, infos: seq<TestInfo>): Clock
    requires HavePaths(infos)
  {
    Clock(c.path, c.count + Cases(infos), c.total + CaseTime(infos), Index(c.indexes, infos, |c.tests|), c.stack,
          Adopt(c.tests, c.stack, roots) + infos)
  }

  lemma AdoptTwice(tests: seq<TestInfo>, stack: seq<nat>, r: seq<nat>, a: seq<TestInfo>, r': seq<nat>)
    requires forall k :: 0 <= k < |stack| ==> stack[k] < |tests|
    ensures Adopt(Adopt(tests, stack, r) + a, stack, r') == Adopt(tests, stack, r + r') + a
    ensures |Adopt(tests, stack, r)| == |tests|
  {
    if stack != [] {
      var top := stack[|stack| - 1];
      Concat3(tests[top].children, r, r');
    }
  }

  lemma PathsConcat(a: seq<TestInfo>, b: seq<TestInfo>)
    requires HavePaths(a) && HavePaths(b)
    ensures HavePaths(a + b)
  {
  }

  lemma GrownTwice(c: Clock, r: seq<nat>, a: seq<TestInfo>, r': seq<nat>, b: seq<TestInfo>)
    requires Consistent(c)
    requires HavePaths(a) && HavePaths(b)
    ensures HavePaths(a + b) && Grown(Grown(c, r, a), r', b) == Grown(c, r + r', a + b)
    ensures Consistent(Grown(c, r, a))
    ensures |Grown(c, r, a).tests| == |c.tests| + |a| && Grown(c, r, a).path == c.path
  {
    PathsConcat(a, b);
    CasesConcat(a, b);
    IndexConcat(c.indexes, a, b, |c.tests|);
    AdoptTwice(c.tests, c.stack, r, a, r');
    hide HavePaths, Cases, CaseTime, Index, Adopt;
    Concat3(Adopt(c.tests, c.stack, r + r'), a, b);
  }

  /** The stream of a node: its entry, the stream of its children, its exit. */
  lemma PlayNode(c: Clock, v: Timed)
    ensures var entered := Step(c, Enter(v.test, v.isSuite));
            Play(c, Signals(v)) == Step(Play(entered, SignalsAll(v.kids)), Exit(v.test, v.isSuite, v.elapsed))
  {
    var enter, exit := [Enter(v.test, v.isSuite)], [Exit(v.test, v.isSuite, v.elapsed)];
    PlayConcat(c, enter + SignalsAll(v.kids), exit);
    PlayConcat(c, enter, SignalsAll(v.kids));
    hide Step, SignalsAll;
    assert enter[1..] == [] && exit[1..] == [];
  }

  lemma {:induction false} PlayOne(c: Clock, v: Timed)
    requires Consistent(c) && Proper(v)
    ensures HavePaths(Infos(v, c.path, |c.tests|))
    ensures Play(c, Signals(v)) == Grown(c, [|c.tests|], Infos(v, c.path, |c.tests|))
    decreases v, 1
  {
    var base, path := |c.tests|, c.path + [v.test];
    var entered := Step(c, Enter(v.test, v.isSuite));
    var roots, kids := Roots(v.kids, base + 1), InfosAll(v.kids, path, base + 1);
    Entered(c, v.test, v.isSuite);
    PathsNotEmpty(v.kids, path, base + 1);
    hide Step, Play, Grown, Consistent, Signals, SignalsAll;
    PlayForest(entered, v.kids);
    PlayNode(c, v);
    Left(c, v, roots, kids);
  }

  lemma Entered(c: Clock, t: Test, isSuite: bool)
    requires Consistent(c)
    ensures var entered := Step(c, Enter(t, isSuite));
            Consistent(entered) && entered.path == c.path + [t] && |entered.tests| == |c.tests| + 1
  {
  }

  /** Leaving a node closes its entry; for a test case that entry is the last one. */
  lemma Left(c: Clock, v: Timed, roots: seq<nat>, kids: seq<TestInfo>)
    requires Consistent(c) && (v.isSuite || kids == [])
    requires HavePaths(kids)
    ensures HavePaths([TestInfo(c.path + [v.test], v.isSuite, roots, v.elapsed)] + kids)
    ensures var info := TestInfo(c.path + [v.test], v.isSuite, roots, v.elapsed);
            Step(Grown(Step(c, Enter(v.test, v.isSuite)), roots, kids), Exit(v.test, v.isSuite, v.elapsed)) ==
            Grown(c, [|c.tests|], [info] + kids)
  {
    var base := |c.tests|;
    var before := Adopt(c.tests, c.stack, [base]);
    var info := TestInfo(c.path + [v.test], v.isSuite, roots, v.elapsed);
    var entry := TestInfo(c.path + [v.test], v.isSuite, [], 0.0);
    var indexes := Insert(c.indexes, v.test, base);
    var count := c.count + if v.isSuite then 0 else 1;
    assert |before| == base;
    var entered := Clock(c.path + [v.test], count, c.total, indexes, c.stack + [base], before + [entry]);
    assert Step(c, Enter(v.test, v.isSuite)) == entered;
    LeftEntries(before, info, kids, c.stack);
    OneInfo(info, kids);
    IndexOne(c.indexes, info, kids, base);
    NothingTimed();
    hide Cases, CaseTime, Index, Adopt, Insert;
    ExitOpen(Grown(entered, roots, kids), c.path, v.test, c.stack, base, v.isSuite, v.elapsed);
    hide Step;
    assert v.isSuite || (before + ([info] + kids))[|before + ([info] + kids)| - 1] == info;
  }

  /** Leaving the test on top of the stack. */
  lemma ExitOpen(x: Clock, path: seq<Test>, t: Test, stack: seq<nat>, base: nat, isSuite: bool, elapsed: real)
    requires x.path == path + [t] && x.stack == stack + [base] && base < |x.tests|
    ensures var tests := x.tests[base := x.tests[base].(elapsed := elapsed)];
            Step(x, Exit(t, isSuite, elapsed)) ==
            Clock(path, x.count, x.total + (if isSuite then 0.0 else tests[|tests| - 1].elapsed), x.indexes, stack, tests)
  {
    Cut(path, [t]);
    Cut(stack, [base]);
  }

  lemma NothingTimed()
    ensures Cases([]) == 0 && CaseTime([]) == 0.0
  {
  }

  lemma IndexOne(m: map<Test, nat>, info: TestInfo, more: seq<TestInfo>, base: nat)
    requires info.path != [] && HavePaths(more)
    ensures HavePaths([info] + more)
    ensures Index(m, [info] + more, base) == Index(Insert(m, info.path[|info.path| - 1], base), more, base + 1)
  {
    assert ([info] + more)[1..] == more;
  }

  lemma OneInfo(info: TestInfo, more: seq<TestInfo>)
    ensures Cases([info] + more) == (if info.isSuite then 0 else 1) + Cases(more)
    ensures CaseTime([info] + more) == (if info.isSuite then 0.0 else info.elapsed) + CaseTime(more)
  {
    assert ([info] + more)[1..] == more;
  }

  /** The entry that was opened gets its children, and at the end its time. */
  lemma LeftEntries(before: seq<TestInfo>, info: TestInfo, kids: seq<TestInfo>, stack: seq<nat>)
    ensures var base, entry := |before|, info.(children := [], elapsed := 0.0);
            var tests := Adopt(before + [entry], stack + [base], info.children) + kids;
            base < |tests| && tests[base := tests[base].(elapsed := info.elapsed)] == before + ([info] + kids)
  {
    var base, entry := |before|, info.(children := [], elapsed := 0.0);
    assert [] + info.children == info.children;
    var open := info.(elapsed := 0.0);
    assert (before + [entry])[base := open] == before + [open];
    assert (before + [open] + kids)[base := info] == before + ([info] + kids);
  }

  lemma GrownNothing(c: Clock)
    ensures Grown(c, [], []) == c
  {
    if c.stack != [] && c.stack[|c.stack| - 1] < |c.tests| {
      var top := c.stack[|c.stack| - 1];
      assert c.tests[top].children + [] == c.tests[top].children;
    }
    assert Adopt(c.tests, c.stack, []) + [] == c.tests;
  }

  lemma ForestParts(vs: seq<Timed>, path: seq<Test>, base: nat)
    requires vs != []
    ensures SignalsAll(vs) == Signals(vs[0]) + SignalsAll(vs[1..])
    ensures InfosAll(vs, path, base) == Infos(vs[0], path, base) + InfosAll(vs[1..], path, base + Size(vs[0]))
    ensures Roots(vs, base) == [base] + Roots(vs[1..], base + Size(vs[0]))
  {
  }

  /** Replaying a forest, in whatever state, adds its entries in pre-order and leaves stack and path as they were. */
  lemma {:induction false} PlayForest(c: Clock, vs: seq<Timed>)
    requires Consistent(c) && forall v :: v in vs ==> Proper(v)
    ensures HavePaths(InfosAll(vs, c.path, |c.tests|))
    ensures Play(c, SignalsAll(vs)) == Grown(c, Roots(vs, |c.tests|), InfosAll(vs, c.path, |c.tests|))
    decreases vs, 0
  {
    var base := |c.tests|;
    PathsNotEmpty(vs, c.path, base);
    if vs == [] {
      GrownNothing(c);
    } else {
      hide Grown, Play, Signals, Infos, HavePaths, Consistent;
      var one, more := Infos(vs[0], c.path, base), InfosAll(vs[1..], c.path, base + Size(vs[0]));
      PlayOne(c, vs[0]);
      var next := Grown(c, [base], one);
      PathsNotEmpty(vs[1..], c.path, base + Size(vs[0]));
      InfosSize(vs[0], c.path, base);
      GrownTwice(c, [base], one, Roots(vs[1..], base + Size(vs[0])), more);
      PlayForest(next, vs[1..]);
      PlayConcat(c, Signals(vs[0]), SignalsAll(vs[1..]));
      ForestParts(vs, c.path, base);
      hide SignalsAll, InfosAll, Roots, Size;
    }
  }
}
