/** Running a tree of tests: the trace of events, the stop flag, and what a run may execute. */
module Engine {
  import opened Tests
  import opened Protectors

  datatype Phase = SetUp | RunTest | TearDown

  /** How one test method ends: it returns, or it throws. */
  datatype Ending = Completed | Throws(exc: Exc)

  /** The events sent to listeners, and the calls of test methods between them. */
  datatype Event =
    | StartSuite(test: Test)
    | EndSuite(test: Test)
    | StartTest(test: Test)
    | EndTest(test: Test)
    | Failure(test: Test, isError: bool, detail: Detail)
    | Call(test: Test, phase: Phase, ending: Ending)

  /**
   * What the code outside the engine does, as a function of everything that happened so far:
   * how each test method ends, and whether a listener or a test method raises stop during an event.
   */
  datatype Env = Env(behaves: (seq<Event>, Test, Phase) -> Ending, raises: seq<Event> -> bool)

  datatype State = State(trace: seq<Event>, stop: bool)

  function Emit(env: Env, st: State, e: Event): State {
    var trace := st.trace + [e];
    State(trace, st.stop || env.raises(trace))
  }

  /** The functor around one test method: it answers true unless the method throws. */
  function MethodFunctor(env: Env, t: Test, phase: Phase): Functor<State> {
    (st: State) =>
      var ending := env.behaves(st.trace, t, phase);
      Ran(Emit(env, st, Call(t, phase, ending)),
          match ending case Completed => Returned(true) case Throws(exc) => Thrown(exc))
  }

  /** The default protector reports a failed assertion as a failure and anything else as an error. */
  function Report(env: Env, t: Test): (State, Exc) -> State {
    (st: State, exc: Exc) => Emit(env, st, Failure(t, !exc.AssertionFailed?, exc.detail))
  }

  /** TestResult::protect with the chain every TestResult starts with. */
  function Protect(env: Env, t: Test, phase: Phase, st: State): Ran<State> {
    Nest([DefaultProtector(Report(env, t))], MethodFunctor(env, t, phase))(st)
  }

  lemma ProtectIs(env: Env, t: Test, phase: Phase, st: State)
    ensures var ending := env.behaves(st.trace, t, phase);
            var called := Emit(env, st, Call(t, phase, ending));
            Protect(env, t, phase, st) ==
            match ending
            case Completed => Ran(called, Returned(true))
            case Throws(exc) => Ran(Emit(env, called, Failure(t, !exc.AssertionFailed?, exc.detail)), Returned(false))
  {
    var p := DefaultProtector(Report(env, t));
    NothingEscapes(Report(env, t), [], MethodFunctor(env, t, phase), st);
    assert [p] + [] == [p];
  }

  function RunCase(env: Env, t: Test, st: State): State {
    var started := Emit(env, st, StartTest(t));
    var setUp := Protect(env, t, SetUp, started);
    var body := if setUp.outcome == Returned(true) then Protect(env, t, RunTest, setUp.world) else setUp;
    var tornDown := Protect(env, t, TearDown, body.world);
    Emit(env, tornDown.world, EndTest(t))
  }

  function Run(env: Env, t: Test, st: State): State
    decreases t, 0
  {
    match t
    case Case(_, _) => RunCase(env, t, st)
    case Suite(_, _, children) =>
      Emit(env, RunChildren(env, children, Emit(env, st, StartSuite(t))), EndSuite(t))
    case Decorator(_, inner) => Run(env, inner, st)
    case Repeated(_, inner, times) => RunTimes(env, inner, times, st)
  }

  function RunChildren(env: Env, ts: seq<Test>, st: State): State
    decreases ts, 0
  {
    if ts == [] || st.stop then st else RunChildren(env, ts[1..], Run(env, ts[0], st))
  }

  function RunTimes(env: Env, t: Test, n: int, st: State): State
    decreases t, 1, n
  {
    if n <= 0 || st.stop then st else RunTimes(env, t, n - 1, Run(env, t, st))
  }

  /** A listener, by its address, is handed an event. */
  datatype Delivery = Delivery(listener: nat, event: Event)

  /** One event goes to every registered listener in the order of registration. */
  function Deliveries(listeners: seq<nat>, e: Event): seq<Delivery> {
    seq(|listeners|, i requires 0 <= i < |listeners| => Delivery(listeners[i], e))
  }

  /** Everything delivered for a trace: calls of test methods are not events. */
  function AllDeliveries(listeners: seq<nat>, trace: seq<Event>): seq<Delivery> {
    if trace == [] then [] else
    var last := trace[|trace| - 1];
    AllDeliveries(listeners, trace[..|trace| - 1]) + (if last.Call? then [] else Deliveries(listeners, last))
  }

  class TestResult {
    const env: Env
    var listeners: seq<nat>
    var stop: bool
    var trace: seq<Event>
    var delivered: seq<Delivery>

    ghost function Current(): State reads this { State(trace, stop) }

    ghost predicate Valid() reads this { delivered == AllDeliveries(listeners, trace) }

    constructor (env: Env, listeners: seq<nat>)
      ensures Valid() && this.env == env && this.listeners == listeners && Current() == State([], false)
    {
      this.env := env;
      this.listeners := listeners;
      stop := false;
      trace := [];
      delivered := [];
    }

    predicate ShouldStop() reads this { stop }

    method Stop()
      modifies this`stop
      ensures stop
    {
      stop := true;
    }

    /** The loop over the listeners, common to startTest, endTest, startSuite, endSuite and addFailure. */
    method Broadcast(e: Event)
      requires Valid() && !e.Call?
      modifies this`delivered, this`trace, this`stop
      ensures Valid() && Current() == Emit(env, old(Current()), e)
    {
      for i := 0 to |listeners|
        invariant trace == old(trace) && stop == old(stop)
        invariant delivered == old(delivered) + Deliveries(listeners, e)[..i]
      {
        delivered := delivered + [Delivery(listeners[i], e)];
      }
      assert Deliveries(listeners, e)[..|listeners|] == Deliveries(listeners, e);
      Happened(e);
      assert trace[..|trace| - 1] == old(trace);
    }

    /** Records what happened; whoever was called meanwhile may have raised stop. */
    method Happened(e: Event)
      modifies this`trace, this`stop
      ensures Current() == Emit(env, old(Current()), e)
    {
      trace := trace + [e];
      if env.raises(trace) {
        Stop();
      }
    }

    /** A call of a test method is no event: nothing is delivered. */
    method Called(e: Event)
      requires Valid() && e.Call?
      modifies this`trace, this`stop
      ensures Valid() && Current() == Emit(env, old(Current()), e)
    {
      Happened(e);
      assert trace[..|trace| - 1] == old(trace);
    }

    /** A protected call of one test method. */
    method ProtectCall(t: Test, phase: Phase) returns (succeed: bool)
      requires Valid()
      modifies this`delivered, this`trace, this`stop
      ensures Valid() && Ran(Current(), Returned(succeed)) == Protect(env, t, phase, old(Current()))
    {
      ProtectIs(env, t, phase, Current());
      hide Protect, AllDeliveries, Deliveries, Emit;
      var ending := env.behaves(trace, t, phase);
      Called(Call(t, phase, ending));
      match ending {
        case Completed =>
          succeed := true;
        case Throws(exc) =>
          Broadcast(Failure(t, !exc.AssertionFailed?, exc.detail));
          succeed := false;
      }
    }

    method RunCaseOf(t: Test)
      requires Valid()
      modifies this`delivered, this`trace, this`stop
      ensures Valid() && Current() == RunCase(env, t, old(Current()))
    {
      hide Protect, AllDeliveries, Emit;
      Broadcast(StartTest(t));
      var setUp := ProtectCall(t, SetUp);
      if setUp {
        var _ := ProtectCall(t, RunTest);
      }
      var _ := ProtectCall(t, TearDown);
      Broadcast(EndTest(t));
    }

    method RunAny(t: Test)
      requires Valid()
      modifies this`delivered, this`trace, this`stop
      ensures Valid() && Current() == Run(env, t, old(Current()))
      decreases t, 0
    {
      match t {
        case Case(_, _) =>
          RunCaseOf(t);
        case Suite(_, _, children) =>
          Broadcast(StartSuite(t));
          RunChildTests(children);
          Broadcast(EndSuite(t));
        case Decorator(_, inner) =>
          RunAny(inner);
        case Repeated(_, inner, times) =>
          RunRepeatedly(inner, times);
      }
    }

    method RunChildTests(children: seq<Test>)
      requires Valid()
      modifies this`delivered, this`trace, this`stop
      ensures Valid() && Current() == RunChildren(env, children, old(Current()))
      decreases children, 0
    {
      for index := 0 to |children|
        invariant Valid()
        invariant RunChildren(env, children[index..], Current()) == RunChildren(env, children, old(Current()))
      {
        if ShouldStop() {
          break;
        }
        RunAny(children[index]);
      }
    }

    method RunRepeatedly(t: Test, times: int)
      requires Valid()
      modifies this`delivered, this`trace, this`stop
      ensures Valid() && Current() == RunTimes(env, t, times, old(Current()))
      decreases t, 1
    {
      hide Run, AllDeliveries;
      var n := 0;
      while n < times
        invariant Valid() && (n == 0 || n <= times)
        invariant RunTimes(env, t, times - n, Current()) == RunTimes(env, t, times, old(Current()))
      {
        if ShouldStop() {
          break;
        }
        RunAny(t);
        n := n + 1;
      }
    }
  }
}
