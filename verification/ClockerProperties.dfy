/** What the replayed model says about the executed tree, for every run. */
module ClockerProperties {
  import opened Tests
  import opened Engine
  import opened Runs
  import opened Clocker

  // ---------- the entries form the executed forest ----------

  function Last(path: seq<Test>): Test
    requires path != []
  {
    path[|path| - 1]
  }

  /** Every child comes after its parent, and its path is the parent's path and itself. */
  ghost predicate Linked(infos: seq<TestInfo>, base: nat) {
    forall i, c :: 0 <= i < |infos| && c in infos[i].children ==>
      base + i < c < base + |infos| && infos[c - base].path != [] &&
      infos[c - base].path == infos[i].path + [Last(infos[c - base].path)]
  }

  /** How often an index is named as a child. */
  function Mentions(infos: seq<TestInfo>, c: nat): nat {
    if infos == [] then 0 else multiset(infos[0].children)[c] + Mentions(infos[1..], c)
  }

  lemma {:induction false} MentionsConcat(a: seq<TestInfo>, b: seq<TestInfo>, c: nat)
    ensures Mentions(a + b, c) == Mentions(a, c) + Mentions(b, c)
  {
    if a == [] {
      assert a + b == b;
    } else {
      assert (a + b)[1..] == a[1..] + b;
      MentionsConcat(a[1..], b, c);
    }
  }

  lemma {:induction false} RootsInside(vs: seq<Timed>, path: seq<Test>, base: nat)
    ensures var infos := InfosAll(vs, path, base);
            forall c :: c in Roots(vs, base) ==>
              base <= c < base + |infos| && infos[c - base].path != [] &&
              infos[c - base].path == path + [Last(infos[c - base].path)]
    decreases vs
  {
    if vs != [] {
      var one, more := Infos(vs[0], path, base), InfosAll(vs[1..], path, base + Size(vs[0]));
      InfosSize(vs[0], path, base);
      RootsInside(vs[1..], path, base + Size(vs[0]));
      var infos := one + more;
      assert infos[0] == one[0];
      var later := Roots(vs[1..], base + Size(vs[0]));
      assert forall c :: c in later ==> infos[c - base] == more[c - (base + Size(vs[0]))];
    }
  }

  lemma LinkedConcat(a: seq<TestInfo>, b: seq<TestInfo>, base: nat)
    requires Linked(a, base) && Linked(b, base + |a|)
    ensures Linked(a + b, base)
  {
    var all := a + b;
    forall i, c | 0 <= i < |all| && c in all[i].children
      ensures base + i < c < base + |all| && all[c - base].path != [] &&
              all[c - base].path == all[i].path + [Last(all[c - base].path)]
    {
      if i < |a| {
        assert all[i] == a[i] && all[c - base] == a[c - base];
      } else {
        assert all[i] == b[i - |a|] && all[c - base] == b[c - (base + |a|)];
      }
    }
  }

  lemma {:induction false} ForestIsLinked(vs: seq<Timed>, path: seq<Test>, base: nat)
    ensures Linked(InfosAll(vs, path, base), base)
    decreases vs, 0
  {
    if vs != [] {
      var v := vs[0];
      NodeIsLinked(v, path, base);
      InfosSize(v, path, base);
      ForestIsLinked(vs[1..], path, base + Size(v));
      LinkedConcat(Infos(v, path, base), InfosAll(vs[1..], path, base + Size(v)), base);
    }
  }

  lemma {:induction false} NodeIsLinked(v: Timed, path: seq<Test>, base: nat)
    ensures Linked(Infos(v, path, base), base)
    decreases v, 1
  {
    var info := TestInfo(path + [v.test], v.isSuite, Roots(v.kids, base + 1), v.elapsed);
    var kids := InfosAll(v.kids, path + [v.test], base + 1);
    ForestIsLinked(v.kids, path + [v.test], base + 1);
    RootsInside(v.kids, path + [v.test], base + 1);
    var all := [info] + kids;
    forall i, c | 0 <= i < |all| && c in all[i].children
      ensures base + i < c < base + |all| && all[c - base].path != [] &&
              all[c - base].path == all[i].path + [Last(all[c - base].path)]
    {
      if i > 0 {
        assert all[i] == kids[i - 1];
      }
      assert all[c - base] == kids[c - (base + 1)];
    }
  }

  /** Every index of the forest is a root or named as a child, once in all. */
  lemma {:induction false} MentionedOnce(vs: seq<Timed>, path: seq<Test>, base: nat, c: nat)
    ensures Mentions(InfosAll(vs, path, base), c) + multiset(Roots(vs, base))[c] ==
            if base <= c < base + SizeAll(vs) then 1 else 0
    decreases vs, 0
  {
    if vs != [] {
      var v, next := vs[0], base + Size(vs[0]);
      NodeMentions(v, path, base, c);
      MentionedOnce(vs[1..], path, next, c);
      ForestParts(vs, path, base);
      SizeParts(vs);
      RootsCount(vs, base, c);
      MentionsConcat(Infos(v, path, base), InfosAll(vs[1..], path, next), c);
      hide Infos, InfosAll, Mentions, Size, Roots, SizeAll;
    } else {
      NoMentions(c);
    }
  }

  lemma NoMentions(c: nat)
    ensures Mentions([], c) == 0
  {
  }

  /** The first tree has at least its root. */
  lemma SizeParts(vs: seq<Timed>)
    requires vs != []
    ensures SizeAll(vs) == Size(vs[0]) + SizeAll(vs[1..]) && Size(vs[0]) >= 1
  {
  }

  lemma RootsCount(vs: seq<Timed>, base: nat, c: nat)
    requires vs != []
    ensures multiset(Roots(vs, base))[c] == (if c == base then 1 else 0) + multiset(Roots(vs[1..], base + Size(vs[0])))[c]
  {
    hide Size;
    var more := Roots(vs[1..], base + Size(vs[0]));
    assert multiset([base] + more) == multiset{base} + multiset(more);
  }

  lemma {:induction false} NodeMentions(v: Timed, path: seq<Test>, base: nat, c: nat)
    ensures Mentions(Infos(v, path, base), c) == if base < c < base + Size(v) then 1 else 0
    decreases v, 1
  {
    var info := TestInfo(path + [v.test], v.isSuite, Roots(v.kids, base + 1), v.elapsed);
    MentionedOnce(v.kids, path + [v.test], base + 1, c);
    MentionsConcat([info], InfosAll(v.kids, path + [v.test], base + 1), c);
    assert [info][1..] == [];
    hide InfosAll, Roots, SizeAll;
  }

  /** indexOf answers with the first visit of a test. */
  lemma {:induction false} IndexIsFirst(m: map<Test, nat>, infos: seq<TestInfo>, base: nat, t: Test)
    requires HavePaths(infos)
    ensures var m' := Index(m, infos, base);
            if t in m then t in m' && m'[t] == m[t]
            else if t in m' then
              base <= m'[t] < base + |infos| && Last(infos[m'[t] - base].path) == t &&
              forall k :: 0 <= k < m'[t] - base ==> Last(infos[k].path) != t
            else
              forall k :: 0 <= k < |infos| ==> Last(infos[k].path) != t
    decreases infos
  {
    if infos != [] {
      var first := Last(infos[0].path);
      var tail := infos[1..];
      IndexIsFirst(Insert(m, first, base), tail, base + 1, t);
      assert forall k :: 1 <= k < |infos| ==> infos[k] == tail[k - 1];
    }
  }

  // ---------- the stream of a run ----------

  /** What the clocker hears of a trace whose first event is the n-th: elapsed tells what its timers show. */
  function SignalsOf(events: seq<Event>, elapsed: nat -> real, n: nat): seq<Signal>
    decreases events
  {
    if events == [] then [] else
    (match events[0]
     case StartTest(t) => [Enter(t, false)]
     case StartSuite(t) => [Enter(t, true)]
     case EndTest(t) => [Exit(t, false, elapsed(n))]
     case EndSuite(t) => [Exit(t, true, elapsed(n))]
     case _ => []) + SignalsOf(events[1..], elapsed, n + 1)
  }

  lemma {:induction false} SignalsConcat(a: seq<Event>, b: seq<Event>, elapsed: nat -> real, n: nat)
    ensures SignalsOf(a + b, elapsed, n) == SignalsOf(a, elapsed, n) + SignalsOf(b, elapsed, n + |a|)
    decreases a
  {
    if a == [] {
      assert a + b == b;
    } else {
      assert (a + b)[1..] == a[1..] + b;
      SignalsConcat(a[1..], b, elapsed, n + 1);
    }
  }

  lemma {:induction false} QuietSignals(a: seq<Event>, elapsed: nat -> real, n: nat)
    requires forall e :: e in a ==> e.Call? || e.Failure?
    ensures SignalsOf(a, elapsed, n) == []
    decreases a
  {
    if a != [] {
      assert a[0] in a;
      QuietSignals(a[1..], elapsed, n + 1);
    }
  }

  /** An executed forest with the times of its exits. */
  function Time(v: Visit, elapsed: nat -> real, n: nat): Timed
    decreases v
  {
    var end := n + |Flat(v)| - 1;
    match v
    case Leaf(t, _, _, _) => Timed(t, false, [], elapsed(end))
    case Node(t, kids) => Timed(t, true, TimeAll(kids, elapsed, n + 1), elapsed(end))
  }

  function TimeAll(vs: seq<Visit>, elapsed: nat -> real, n: nat): seq<Timed>
    decreases vs
  {
    if vs == [] then [] else [Time(vs[0], elapsed, n)] + TimeAll(vs[1..], elapsed, n + |Flat(vs[0])|)
  }

  lemma Bracketed(start: Event, inner: seq<Event>, end: Event, elapsed: nat -> real, n: nat)
    requires (start.StartTest? && end == EndTest(start.test)) || (start.StartSuite? && end == EndSuite(start.test))
    ensures SignalsOf([start] + inner + [end], elapsed, n) ==
            [Enter(start.test, start.StartSuite?)] + SignalsOf(inner, elapsed, n + 1) +
            [Exit(start.test, start.StartSuite?, elapsed(n + 1 + |inner|))]
  {
    SignalsConcat([start] + inner, [end], elapsed, n);
    SignalsConcat([start], inner, elapsed, n);
    assert [start][1..] == [] && [end][1..] == [];
  }

  lemma {:induction false} SignalsOfVisit(v: Visit, elapsed: nat -> real, n: nat)
    ensures SignalsOf(Flat(v), elapsed, n) == Signals(Time(v, elapsed, n)) && Proper(Time(v, elapsed, n))
    decreases v, 1
  {
    match v
    case Leaf(t, setUp, body, tearDown) =>
      var inner := CaseEvents(t, setUp, body, tearDown);
      QuietSignals(inner, elapsed, n + 1);
      Bracketed(StartTest(t), inner, EndTest(t), elapsed, n);
    case Node(t, kids) =>
      SignalsOfForest(kids, elapsed, n + 1);
      Bracketed(StartSuite(t), FlatAll(kids), EndSuite(t), elapsed, n);
  }

  lemma {:induction false} SignalsOfForest(vs: seq<Visit>, elapsed: nat -> real, n: nat)
    ensures SignalsOf(FlatAll(vs), elapsed, n) == SignalsAll(TimeAll(vs, elapsed, n))
    ensures forall v :: v in TimeAll(vs, elapsed, n) ==> Proper(v)
    decreases vs, 0
  {
    if vs != [] {
      SignalsConcat(Flat(vs[0]), FlatAll(vs[1..]), elapsed, n);
      SignalsOfVisit(vs[0], elapsed, n);
      SignalsOfForest(vs[1..], elapsed, n + |Flat(vs[0])|);
    }
  }

  /** Every property of the model after it heard a whole run. */
  ghost predicate Rebuilt(c: Clock, forest: seq<Timed>) {
    var infos := InfosAll(forest, [], 0);
    && c.stack == [] && c.path == []
    && c.tests == infos && |infos| == SizeAll(forest)
    && c.count == Cases(infos) && c.total == CaseTime(infos)
    && Linked(infos, 0)
    && (forall i: nat :: Mentions(infos, i) == if i < |infos| && i !in Roots(forest, 0) then 1 else 0)
  }

  predicate VisitAt(c: Clock, t: Test, k: nat) {
    k < |c.tests| && c.tests[k].path != [] && Last(c.tests[k].path) == t
  }

  /** The index answered for a test is that of its first visit; the answer -1 says that it was never visited. */
  ghost predicate FindsFirstVisit(c: Clock, t: Test) {
    var i := IndexIn(c, t);
    if i == -1 then forall k: nat :: !VisitAt(c, t, k)
    else i >= 0 && VisitAt(c, t, i) && forall k: nat :: k < i ==> !VisitAt(c, t, k)
  }

  lemma {:induction false} RootsAreDistinct(vs: seq<Timed>, base: nat, i: nat)
    ensures multiset(Roots(vs, base))[i] <= 1
    ensures i in Roots(vs, base) ==> base <= i < base + SizeAll(vs)
    decreases vs
  {
    if vs != [] {
      var more := Roots(vs[1..], base + Size(vs[0]));
      RootsAreDistinct(vs[1..], base + Size(vs[0]), i);
      assert multiset([base] + more) == multiset{base} + multiset(more);
    }
  }

  /** For every forest of tests, replaying its stream into a new model rebuilds it. */
  lemma ForestIsRebuilt(forest: seq<Timed>)
    requires forall v :: v in forest ==> Proper(v)
    ensures Rebuilt(Play(NEW_CLOCK, SignalsAll(forest)), forest)
    ensures forall t :: FindsFirstVisit(Play(NEW_CLOCK, SignalsAll(forest)), t)
  {
    var infos := InfosAll(forest, [], 0);
    var c := Play(NEW_CLOCK, SignalsAll(forest));
    PathsNotEmpty(forest, [], 0);
    PlayForest(NEW_CLOCK, forest);
    assert [] + infos == infos;
    hide Play, SignalsAll, InfosAll, Linked, Index, HavePaths, FindsFirstVisit, Mentions, Proper;
    InfosAllSize(forest, [], 0);
    ForestIsLinked(forest, [], 0);
    MentionedUnlessRoot(forest);
    forall t
      ensures FindsFirstVisit(c, t)
    {
      FirstVisitFound(infos, c, t);
    }
  }

  lemma MentionedUnlessRoot(forest: seq<Timed>)
    ensures forall i: nat ::
              Mentions(InfosAll(forest, [], 0), i) == if i < SizeAll(forest) && i !in Roots(forest, 0) then 1 else 0
  {
    hide Mentions, InfosAll, SizeAll, Roots;
    forall i: nat
      ensures Mentions(InfosAll(forest, [], 0), i) == if i < SizeAll(forest) && i !in Roots(forest, 0) then 1 else 0
    {
      MentionedOnce(forest, [], 0, i);
      RootsAreDistinct(forest, 0, i);
    }
  }

  lemma FirstVisitFound(infos: seq<TestInfo>, c: Clock, t: Test)
    requires HavePaths(infos) && c.tests == infos && c.indexes == Index(map[], infos, 0)
    ensures FindsFirstVisit(c, t)
  {
    IndexIsFirst(map[], infos, 0, t);
  }

  /**
   * What the questions to a model that heard a forest answer: the children of an entry come after it and extend
   * its path, and indexOf gives the first visit of a test or -1.
   */
  lemma ModelAnswers(model: ClockerModel, forest: seq<Timed>, test: Test, testIndex: nat, childIndex: nat)
    requires forall v :: v in forest ==> Proper(v)
    requires model.Current() == Play(NEW_CLOCK, SignalsAll(forest))
    ensures model.IndexOf(test) == -1 <==> forall k: nat :: !VisitAt(model.Current(), test, k)
    ensures model.IndexOf(test) != -1 ==>
              model.IndexOf(test) >= 0 && VisitAt(model.Current(), test, model.IndexOf(test)) &&
              forall k: nat :: k < model.IndexOf(test) ==> !VisitAt(model.Current(), test, k)
    ensures testIndex < |model.tests| && childIndex < model.ChildCountFor(testIndex) ==>
              var child := model.ChildAtFor(testIndex, childIndex);
              testIndex < child < |model.tests| && model.tests[child].path != [] &&
              model.tests[child].path == model.tests[testIndex].path + [Last(model.tests[child].path)]
  {
    ForestIsRebuilt(forest);
    assert FindsFirstVisit(model.Current(), test);
    hide Play, SignalsAll, InfosAll, Proper;
    if testIndex < |model.tests| && childIndex < model.ChildCountFor(testIndex) {
      assert model.tests[testIndex].children[childIndex] in model.tests[testIndex].children;
    }
  }

  /**
   * For every run of every test tree, whoever stops it and whatever throws: the model that heard the run
   * holds the executed forest.
   */
  lemma RunIsRebuilt(env: Env, t: Test, elapsed: nat -> real) returns (vs: seq<Visit>)
    ensures Executes(State([], false), Run(env, t, State([], false)), vs, Schedule(t))
    ensures var c := Play(NEW_CLOCK, SignalsOf(Run(env, t, State([], false)).trace, elapsed, 0));
            Rebuilt(c, TimeAll(vs, elapsed, 0)) && forall t' :: FindsFirstVisit(c, t')
  {
    hide Run, Schedule, FlatAll, LeavesAll, SignalsOf, SignalsAll, TimeAll, Play, Rebuilt, FindsFirstVisit, Proper;
    vs := RunForest(env, t, State([], false));
    assert [] + FlatAll(vs) == FlatAll(vs);
    SignalsOfForest(vs, elapsed, 0);
    ForestIsRebuilt(TimeAll(vs, elapsed, 0));
  }
}
