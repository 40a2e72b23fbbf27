/** Nesting, stopping and starting, for every run of every test tree. */
module RunProperties {
  import opened Sequences
  import opened Tests
  import opened Protectors
  import opened Engine
  import opened Runs

  predicate IsStart(e: Event) { e.StartTest? || e.StartSuite? }

  // ---------- nesting ----------

  datatype Unwound = Unwound(open: seq<Event>) | Mismatch

  /** Follows the starts and ends with a stack of the starts still open. */
  function Unwind(open: seq<Event>, events: seq<Event>): Unwound
    decreases events
  {
    if events == [] then Unwound(open) else
    match events[0]
    case StartSuite(_) => Unwind(open + [events[0]], events[1..])
    case StartTest(_) => Unwind(open + [events[0]], events[1..])
    case EndSuite(t) =>
      if open != [] && open[|open| - 1] == StartSuite(t) then Unwind(open[..|open| - 1], events[1..]) else Mismatch
    case EndTest(t) =>
      if open != [] && open[|open| - 1] == StartTest(t) then Unwind(open[..|open| - 1], events[1..]) else Mismatch
    case Failure(t, _, _) =>
      if open != [] && open[|open| - 1] == StartTest(t) then Unwind(open, events[1..]) else Mismatch
    case Call(t, _, _) =>
      if open != [] && open[|open| - 1] == StartTest(t) then Unwind(open, events[1..]) else Mismatch
  }

  /** Calls and failures of the running test leave the stack as it is. */
  lemma {:induction false} UnwindQuiet(open: seq<Event>, t: Test, quiet: seq<Event>, rest: seq<Event>)
    requires open != [] && open[|open| - 1] == StartTest(t)
    requires forall e :: e in quiet ==> (e.Call? || e.Failure?) && e.test == t
    ensures Unwind(open, quiet + rest) == Unwind(open, rest)
  {
    if quiet == [] {
      assert quiet + rest == rest;
    } else {
      assert (quiet + rest)[0] == quiet[0] && (quiet + rest)[1..] == quiet[1..] + rest;
      UnwindQuiet(open, t, quiet[1..], rest);
    }
  }

  lemma UnwindBetween(open: seq<Event>, start: Event, inner: seq<Event>, end: Event, rest: seq<Event>)
    requires (start.StartTest? && end == EndTest(start.test)) || (start.StartSuite? && end == EndSuite(start.test))
    requires Unwind(open + [start], inner + ([end] + rest)) == Unwind(open + [start], [end] + rest)
    ensures Unwind(open, [start] + inner + [end] + rest) == Unwind(open, rest)
  {
    var all := [start] + inner + [end] + rest;
    assert all[0] == start && all[1..] == inner + ([end] + rest);
    Cut(open, [start]);
    Cut([end], rest);
  }

  lemma {:induction false} UnwindFlat(open: seq<Event>, v: Visit, rest: seq<Event>)
    ensures Unwind(open, Flat(v) + rest) == Unwind(open, rest)
    decreases v
  {
    match v
    case Leaf(t, setUp, body, tearDown) =>
      var end := [EndTest(t)] + rest;
      UnwindQuiet(open + [StartTest(t)], t, CaseEvents(t, setUp, body, tearDown), end);
      UnwindBetween(open, StartTest(t), CaseEvents(t, setUp, body, tearDown), EndTest(t), rest);
    case Node(t, kids) =>
      UnwindFlatAll(open + [StartSuite(t)], kids, [EndSuite(t)] + rest);
      UnwindBetween(open, StartSuite(t), FlatAll(kids), EndSuite(t), rest);
  }

  lemma {:induction false} UnwindFlatAll(open: seq<Event>, vs: seq<Visit>, rest: seq<Event>)
    ensures Unwind(open, FlatAll(vs) + rest) == Unwind(open, rest)
    decreases vs
  {
    if vs == [] {
      assert FlatAll(vs) + rest == rest;
    } else {
      Concat3(Flat(vs[0]), FlatAll(vs[1..]), rest);
      UnwindFlat(open, vs[0], FlatAll(vs[1..]) + rest);
      UnwindFlatAll(open, vs[1..], rest);
    }
  }

  lemma NothingLeft()
    ensures Unwind([], []) == Unwound([])
  {
  }

  /** What a run adds to the trace is well nested: every start is closed by its own end. */
  lemma RunIsNested(env: Env, t: Test, st: State)
    ensures st.trace <= Run(env, t, st).trace
    ensures Unwind([], Run(env, t, st).trace[|st.trace|..]) == Unwound([])
  {
    NothingLeft();
    hide Run, Schedule, FlatAll, LeavesAll, Unwind;
    var vs := RunForest(env, t, st);
    Cut(st.trace, FlatAll(vs));
    UnwindFlatAll([], vs, []);
    assert FlatAll(vs) + [] == FlatAll(vs);
  }

  // ---------- stopping ----------

  /** Somebody raised stop during the event at index i. */
  ghost predicate RaisedAt(env: Env, trace: seq<Event>, i: nat) {
    i < |trace| && env.raises(trace[..i + 1])
  }

  /** No start follows an event, from index n on, during which stop was raised. */
  ghost predicate Obedient(env: Env, trace: seq<Event>, n: nat) {
    forall i, j :: n <= i < j < |trace| && RaisedAt(env, trace, i) ==> !IsStart(trace[j])
  }

  ghost predicate Raised(env: Env, trace: seq<Event>, n: nat) {
    exists i :: n <= i < |trace| && RaisedAt(env, trace, i)
  }

  /** Going from a to b obeyed stop, and the flag of b tells whether anyone raised it. */
  ghost predicate Obeys(env: Env, a: State, b: State) {
    a.trace <= b.trace && (b.stop <==> a.stop || Raised(env, b.trace, |a.trace|)) &&
    Obedient(env, b.trace, |a.trace|)
  }

  lemma ObeysThen(env: Env, a: State, b: State, c: State)
    requires Obeys(env, a, b) && Obeys(env, b, c)
    requires b.stop ==> forall j :: |b.trace| <= j < |c.trace| ==> !IsStart(c.trace[j])
    ensures Obeys(env, a, c)
  {
    forall i: nat | i < |b.trace|
      ensures RaisedAt(env, c.trace, i) == RaisedAt(env, b.trace, i)
    {
      assert c.trace[..i + 1] == b.trace[..i + 1];
    }
    assert forall j :: 0 <= j < |b.trace| ==> c.trace[j] == b.trace[j];
  }

  lemma EmitObeys(env: Env, st: State, e: Event)
    ensures Obeys(env, st, Emit(env, st, e))
  {
    var next := Emit(env, st, e);
    assert next.trace[..|st.trace| + 1] == next.trace;
    assert RaisedAt(env, next.trace, |st.trace|) == env.raises(next.trace);
  }

  lemma ObeysNothing(env: Env, st: State)
    ensures Obeys(env, st, st)
  {
  }

  /** Emitting events that are no starts keeps the order. */
  lemma ThenEmit(env: Env, a: State, b: State, e: Event)
    requires Obeys(env, a, b) && !IsStart(e)
    ensures Obeys(env, a, Emit(env, b, e))
  {
    EmitObeys(env, b, e);
    ObeysThen(env, a, b, Emit(env, b, e));
  }

  lemma ThenProtect(env: Env, a: State, t: Test, phase: Phase, b: State)
    requires Obeys(env, a, b)
    ensures Obeys(env, a, Protect(env, t, phase, b).world)
  {
    ProtectIs(env, t, phase, b);
    var ending := env.behaves(b.trace, t, phase);
    ThenEmit(env, a, b, Call(t, phase, ending));
    if ending.Throws? {
      ThenEmit(env, a, Emit(env, b, Call(t, phase, ending)), Failure(t, !ending.exc.AssertionFailed?, ending.exc.detail));
    }
  }

  lemma CaseObeys(env: Env, t: Test, st: State)
    requires t.Case?
    ensures Obeys(env, st, RunCase(env, t, st))
  {
    hide Protect, Emit;
    var started := Emit(env, st, StartTest(t));
    EmitObeys(env, st, StartTest(t));
    ThenProtect(env, st, t, SetUp, started);
    var setUp := Protect(env, t, SetUp, started);
    var body := setUp;
    if setUp.outcome == Returned(true) {
      ThenProtect(env, st, t, RunTest, setUp.world);
      body := Protect(env, t, RunTest, setUp.world);
    }
    ThenProtect(env, st, t, TearDown, body.world);
    ThenEmit(env, st, Protect(env, t, TearDown, body.world).world, EndTest(t));
  }

  /**
   * For every test tree and every point at which stop is raised after the run has begun:
   * no test and no suite starts afterwards.
   */
  lemma {:induction false} RunObeysStop(env: Env, t: Test, st: State)
    ensures Obeys(env, st, Run(env, t, st))
    decreases t, 0
  {
    hide Emit, Obeys;
    match t
    case Case(_, _) =>
      CaseObeys(env, t, st);
    case Suite(_, _, children) =>
      var started := Emit(env, st, StartSuite(t));
      EmitObeys(env, st, StartSuite(t));
      ChildrenObey(env, children, st, started);
      ThenEmit(env, st, RunChildren(env, children, started), EndSuite(t));
    case Decorator(_, inner) =>
      RunObeysStop(env, inner, st);
    case Repeated(_, inner, times) =>
      ObeysNothing(env, st);
      TimesObey(env, inner, times, st, st);
  }

  lemma {:induction false} ChildrenObey(env: Env, ts: seq<Test>, a: State, b: State)
    requires Obeys(env, a, b)
    ensures Obeys(env, a, RunChildren(env, ts, b))
    decreases ts, 0
  {
    hide Obeys, Run;
    if ts != [] && !b.stop {
      RunObeysStop(env, ts[0], b);
      ObeysThen(env, a, b, Run(env, ts[0], b));
      ChildrenObey(env, ts[1..], a, Run(env, ts[0], b));
    }
  }

  lemma {:induction false} TimesObey(env: Env, t: Test, n: int, a: State, b: State)
    requires Obeys(env, a, b)
    ensures Obeys(env, a, RunTimes(env, t, n, b))
    decreases t, 1, n
  {
    hide Obeys, Run;
    if n > 0 && !b.stop {
      RunObeysStop(env, t, b);
      ObeysThen(env, a, b, Run(env, t, b));
      TimesObey(env, t, n - 1, a, Run(env, t, b));
    }
  }

  /** A run entered with stop already set adds at most one start, as its first event, and leaves stop set. */
  lemma {:induction false} StoppedRunStartsOnce(env: Env, t: Test, st: State)
    requires st.stop
    ensures st.trace <= Run(env, t, st).trace && Run(env, t, st).stop
    ensures forall j :: |st.trace| < j < |Run(env, t, st).trace| ==> !IsStart(Run(env, t, st).trace[j])
    decreases t
  {
    hide RunCase, RunChildren, Emit;
    match t
    case Case(_, _) =>
      StoppedCase(env, t, st);
    case Suite(_, _, children) =>
      StoppedSuite(env, t, st);
    case Decorator(_, inner) =>
      StoppedRunStartsOnce(env, inner, st);
    case Repeated(_, inner, times) =>
  }

  lemma StoppedCase(env: Env, t: Test, st: State)
    requires t.Case? && st.stop
    ensures st.trace <= RunCase(env, t, st).trace && RunCase(env, t, st).stop
    ensures forall j :: |st.trace| < j < |RunCase(env, t, st).trace| ==> !IsStart(RunCase(env, t, st).trace[j])
  {
    hide RunCase, Flat, FlatAll, CaseEvents;
    var v := RunCaseForest(env, t, st);
    LeafStartsOnce(v);
    StartsOnce(st.trace, Flat(v));
    assert st.trace <= st.trace + Flat(v);
  }

  lemma StoppedSuite(env: Env, t: Test, st: State)
    requires t.Suite? && st.stop
    ensures st.trace <= Run(env, t, st).trace && Run(env, t, st).stop
    ensures forall j :: |st.trace| < j < |Run(env, t, st).trace| ==> !IsStart(Run(env, t, st).trace[j])
  {
    var started := Emit(env, st, StartSuite(t));
    assert RunChildren(env, t.children, started) == started;
    assert Run(env, t, st).trace == st.trace + [StartSuite(t)] + [EndSuite(t)];
    hide Run, RunChildren, Emit;
    var added := [StartSuite(t), EndSuite(t)];
    assert st.trace + [StartSuite(t)] + [EndSuite(t)] == st.trace + added;
    StartsOnce(st.trace, added);
  }

  lemma LeafStartsOnce(v: Visit)
    requires v.Leaf?
    ensures forall j :: 0 < j < |Flat(v)| ==> !IsStart(Flat(v)[j])
  {
    var inner := CaseEvents(v.test, v.setUp, v.body, v.tearDown);
    assert forall e :: e in inner ==> !IsStart(e);
    hide CaseEvents;
    var all := [StartTest(v.test)] + inner + [EndTest(v.test)];
    assert forall j :: 0 < j < |all| - 1 ==> all[j] == inner[j - 1];
  }

  lemma StartsOnce(before: seq<Event>, added: seq<Event>)
    requires forall j :: 0 < j < |added| ==> !IsStart(added[j])
    ensures forall j :: |before| < j < |before + added| ==> !IsStart((before + added)[j])
  {
    assert forall j :: |before| < j < |before + added| ==> (before + added)[j] == added[j - |before|];
  }

  // ---------- starting ----------

  /** The tests whose start was announced. */
  function Started(events: seq<Event>): seq<Test> {
    if events == [] then [] else
    (if events[0].StartTest? then [events[0].test] else []) + Started(events[1..])
  }

  lemma {:induction false} StartedConcat(a: seq<Event>, b: seq<Event>)
    ensures Started(a + b) == Started(a) + Started(b)
  {
    if a == [] {
      assert a + b == b;
    } else {
      assert (a + b)[0] == a[0] && (a + b)[1..] == a[1..] + b;
      StartedConcat(a[1..], b);
      Concat3(if a[0].StartTest? then [a[0].test] else [], Started(a[1..]), Started(b));
    }
  }

  lemma {:induction false} NoneStarted(a: seq<Event>)
    requires forall e :: e in a ==> !e.StartTest?
    ensures Started(a) == []
  {
    if a != [] {
      NoneStarted(a[1..]);
    }
  }

  lemma {:induction false} StartedFlat(v: Visit)
    ensures Started(Flat(v)) == Leaves(v)
    decreases v
  {
    match v
    case Leaf(t, setUp, body, tearDown) =>
      var inner := CaseEvents(t, setUp, body, tearDown);
      NoneStarted(inner);
      NoneStarted([EndTest(t)]);
      StartedConcat([StartTest(t)] + inner, [EndTest(t)]);
      StartedConcat([StartTest(t)], inner);
      assert [StartTest(t)][1..] == [];
    case Node(t, kids) =>
      StartedFlatAll(kids);
      NoneStarted([EndSuite(t)]);
      NoneStarted([StartSuite(t)]);
      StartedConcat([StartSuite(t)] + FlatAll(kids), [EndSuite(t)]);
      StartedConcat([StartSuite(t)], FlatAll(kids));
  }

  lemma {:induction false} StartedFlatAll(vs: seq<Visit>)
    ensures Started(FlatAll(vs)) == LeavesAll(vs)
    decreases vs
  {
    if vs != [] {
      StartedConcat(Flat(vs[0]), FlatAll(vs[1..]));
      StartedFlat(vs[0]);
      StartedFlatAll(vs[1..]);
    }
  }

  /** Stopped or not, a run starts a prefix of the scheduled tests in order; without stop, all of them. */
  lemma RunStartsSchedule(env: Env, t: Test, st: State)
    ensures var st' := Run(env, t, st);
            st.trace <= st'.trace && Started(st'.trace[|st.trace|..]) <= Schedule(t) &&
            (!st'.stop ==> Started(st'.trace[|st.trace|..]) == Schedule(t))
  {
    hide Run, Schedule, FlatAll, LeavesAll, Started;
    var vs := RunForest(env, t, st);
    Cut(st.trace, FlatAll(vs));
    StartedFlatAll(vs);
  }
}
