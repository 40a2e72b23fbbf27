/** The graphical test runner: a runner thread and the GUI thread around one lock and one event queue. */
module RunnerModel {

  datatype Thread = Gui | Runner

  datatype Holder = Nobody | HeldBy(thread: Thread)

  /** Events posted by the runner thread and processed by the GUI thread. */
  datatype QtEvent = RunCount(count: nat) | FailureCount(failure: nat, count: nat) | Finished

  /** One thing the GUI thread does. */
  datatype Op =
    | Lock
    | Unlock
    | ResetCounters(total: nat)
    | EmitCleared
    | EmitTotal
    | EmitRun
    | EmitFailures
    | NewResult
    | EmitStarted
    | StartThread
    | RaiseStop

  /** What the GUI thread still has to do in the function it is in. The branches hold the lock. */
  datatype Program =
    | Return
    | Then(op: Op, next: Program)
    | IfRunning(yes: Program, no: Program)
    | IfResult(yes: Program, no: Program)

  /** Where a callback stands: before its lock, inside, about to leave, about to post its event. */
  datatype Place = WantsLock | Inside | Leaving | Posting

  /** What the runner thread is doing. */
  datatype RunnerState =
    | Idle                                     // there is no running thread
    | Between                                  // in the tests, between two callbacks
    | Ending(place: Place)                     // in endTest
    | Failing(failure: nat, place: Place)      // in addFailureInfo
    | Finishing                                // the tests are over, the finished event is not yet posted
    | Exiting                                  // it is posted, the thread still counts as running

  datatype State = State(
    holder: Holder,
    total: nat, run: nat, failureCount: nat, failures: seq<nat>,
    result: bool, stopped: bool, running: bool,
    runner: RunnerState, captured: nat,
    gui: Program, queue: seq<QtEvent>,
    enabled: bool,
    shownTotal: nat, shownRun: nat, shownFailures: nat, shownList: seq<nat>, shownRuns: seq<nat>)

  /** The dialog after its first reset: it shows zeros, and its buttons are enabled. */
  const INITIAL := State(Nobody, 0, 0, 0, [], false, false, false, Idle, 0, Return, [], true, 0, 0, 0, [], [0])

  // ---------- the functions of the model as programs ----------

  /** The signals after a reset, and what the caller of resetTestReportCounterFor does next. */
  function SignalsProgram(after: Program): Program {
    Then(EmitCleared, Then(EmitTotal, Then(EmitRun, Then(EmitFailures, after))))
  }

  /** resetTestReportCounterFor: isTestRunning, then the reset under the lock. */
  function ResetProgram(total: nat, after: Program): Program {
    Then(Lock, IfRunning(Then(Unlock, after),
                         Then(Unlock, Then(Lock, Then(ResetCounters(total), Then(Unlock, SignalsProgram(after)))))))
  }

  const START_PROGRAM :=
    Then(Lock, Then(NewResult, Then(Unlock, Then(EmitStarted, Then(Lock, Then(StartThread, Then(Unlock, Return)))))))

  function RunProgram(total: nat): Program {
    Then(Lock, IfRunning(Then(Unlock, Return), Then(Unlock, ResetProgram(total, START_PROGRAM))))
  }

  const STOP_PROGRAM :=
    Then(Lock, IfResult(
      Then(Unlock, Then(Lock, IfRunning(
        Then(Unlock, Then(Lock, Then(RaiseStop, Then(Unlock, Return)))),
        Then(Unlock, Return)))),
      Then(Unlock, Return)))

  // ---------- steps ----------

  /** One step of either thread; the requests come from the user of the dialog. */
  datatype Action =
    | GuiStep
    | RunnerStep
    | EndTest
    | AddFailure(failure: nat)
    | Finish
    | Deliver
    | RequestRun(total: nat)
    | RequestReset(total: nat)
    | RequestStop
    | UngatedReset(total: nat)   // a reset although the dialog has its buttons disabled

  predicate WantsTheLock(r: RunnerState) { (r.Ending? || r.Failing?) && r.place == WantsLock }

  predicate Enabled(s: State, a: Action) {
    match a
    case GuiStep => s.gui != Return && (s.gui.Then? && s.gui.op == Lock ==> s.holder == Nobody)
    case RunnerStep =>
      s.runner != Idle && s.runner != Between && (WantsTheLock(s.runner) ==> s.holder == Nobody)
    case EndTest => s.runner == Between
    case AddFailure(_) => s.runner == Between
    case Finish => s.runner == Between
    case Deliver => s.gui == Return && s.queue != []
    case RequestRun(_) => s.gui == Return && s.enabled
    case RequestReset(_) => s.gui == Return && s.enabled
    case RequestStop => s.gui == Return
    case UngatedReset(_) => s.gui == Return
  }

  function GuiNext(s: State): State {
    match s.gui
    case Return => s
    case IfRunning(yes, no) => s.(gui := if s.running then yes else no)
    case IfResult(yes, no) => s.(gui := if s.result then yes else no)
    case Then(op, next) => OpNext(s.(gui := next), op)
  }

  function OpNext(s: State, op: Op): State {
    match op
    case Lock => s.(holder := HeldBy(Gui))
    case Unlock => s.(holder := Nobody)
    case ResetCounters(total) => s.(total := total, run := 0, failureCount := 0, failures := [])
    case EmitCleared => s.(shownList := [])
    case EmitTotal => s.(shownTotal := s.total)
    case EmitRun => s.(shownRun := s.run, shownRuns := s.shownRuns + [s.run])
    case EmitFailures => s.(shownFailures := s.failureCount)
    case NewResult => s.(result := true, stopped := false)
    case EmitStarted => s.(enabled := false)
    case StartThread => s.(runner := Between, running := true)
    case RaiseStop => s.(stopped := true)
  }

  function RunnerNext(s: State): State
    requires s.runner != Idle && s.runner != Between
  {
    match s.runner
    case Ending(WantsLock) => s.(runner := Ending(Inside), holder := HeldBy(Runner))
    case Ending(Inside) => s.(runner := Ending(Leaving), run := s.run + 1, captured := s.run + 1)
    case Ending(Leaving) => s.(runner := Ending(Posting), holder := Nobody)
    case Ending(Posting) => s.(runner := Between, queue := s.queue + [RunCount(s.captured)])
    case Failing(f, WantsLock) => s.(runner := Failing(f, Inside), holder := HeldBy(Runner))
    case Failing(f, Inside) =>
      s.(runner := Failing(f, Leaving), failures := s.failures + [f],
         failureCount := s.failureCount + 1, captured := s.failureCount + 1)
    case Failing(f, Leaving) => s.(runner := Failing(f, Posting), holder := Nobody)
    case Failing(f, Posting) => s.(runner := Between, queue := s.queue + [FailureCount(f, s.captured)])
    case Finishing => s.(runner := Exiting, queue := s.queue + [Finished])
    case Exiting => s.(runner := Idle, running := false)
    case _ => s
  }

  /** The GUI thread takes the first event and emits its signals. */
  function Delivered(s: State): State
    requires s.queue != []
  {
    var s' := s.(queue := s.queue[1..]);
    match s.queue[0]
    case RunCount(n) => s'.(shownRun := n, shownRuns := s.shownRuns + [n])
    case FailureCount(f, n) => s'.(shownFailures := n, shownList := s.shownList + [f])
    case Finished => s'.(enabled := true)
  }

  function Next(s: State, a: Action): State
    requires Enabled(s, a)
  {
    match a
    case GuiStep => GuiNext(s)
    case RunnerStep => RunnerNext(s)
    case EndTest => s.(runner := Ending(WantsLock))
    case AddFailure(f) => s.(runner := Failing(f, WantsLock))
    case Finish => s.(runner := Finishing)
    case Deliver => Delivered(s)
    case RequestRun(total) => s.(gui := RunProgram(total))
    case RequestReset(total) => s.(gui := ResetProgram(total, Return))
    case RequestStop => s.(gui := STOP_PROGRAM)
    case UngatedReset(total) => s.(gui := ResetProgram(total, Return))
  }

  /** From s the actions can happen one after the other, and lead to the last state. */
  ghost predicate Happens(s: State, actions: seq<Action>, last: State)
    decreases actions
  {
    if actions == [] then s == last
    else Enabled(s, actions[0]) && Happens(Next(s, actions[0]), actions[1..], last)
  }
}
