/** Why the buttons of the graphical runner matter: a reset between the end of the thread and its last events. */
module RunnerResets {
  import opened Sequences
  import opened RunnerModel
  import opened RunnerProperties

  // ---------- stretches of a run ----------

  lemma OneMore(s: State, a: Action, rest: seq<Action>, last: State)
    requires Enabled(s, a) && Happens(Next(s, a), rest, last)
    ensures Happens(s, [a] + rest, last)
  {
    Cut([a], rest);
  }

  lemma {:induction false} HappensThen(s: State, a: seq<Action>, middle: State, b: seq<Action>, last: State)
    requires Happens(s, a, middle) && Happens(middle, b, last)
    ensures Happens(s, a + b, last)
    decreases a
  {
    if a == [] {
      assert a + b == b;
    } else {
      hide Next, Enabled;
      assert (a + b)[0] == a[0] && (a + b)[1..] == a[1..] + b;
      HappensThen(Next(s, a[0]), a[1..], middle, b, last);
    }
  }

  function Repeat(a: Action, n: nat): seq<Action> { if n == 0 then [] else [a] + Repeat(a, n - 1) }

  lemma Nothing(s: State, a: Action)
    ensures Happens(s, Repeat(a, 0), s)
  {
  }

  /** Two steps that are both possible, and then some more of the same. */
  lemma TwoMore(s: State, a: Action, n: nat, last: State)
    requires Enabled(s, a) && Enabled(Next(s, a), a) && Happens(Next(Next(s, a), a), Repeat(a, n), last)
    ensures Happens(s, Repeat(a, n + 2), last)
  {
    hide Next, Enabled;
    OneMore(Next(s, a), a, Repeat(a, n), last);
    OneMore(s, a, Repeat(a, n + 1), last);
  }

  // ---------- a reset that finds no running thread ----------

  /** What a reset leaves behind when the thread is found not running. */
  function AfterReset(s: State, total: nat, after: Program): State {
    s.(total := total, run := 0, failureCount := 0, failures := [], shownList := [], shownTotal := total,
       shownRun := 0, shownRuns := s.shownRuns + [0], shownFailures := 0, gui := after)
  }

  lemma SignalsRun(s: State, after: Program)
    requires s.gui == SignalsProgram(after)
    ensures Happens(s, Repeat(GuiStep, 4),
                    s.(shownList := [], shownTotal := s.total, shownRun := s.run, shownRuns := s.shownRuns + [s.run],
                       shownFailures := s.failureCount, gui := after))
  {
    var s2 := Next(Next(s, GuiStep), GuiStep);
    var s4 := Next(Next(s2, GuiStep), GuiStep);
    Nothing(s4, GuiStep);
    TwoMore(s2, GuiStep, 0, s4);
    TwoMore(s, GuiStep, 2, s4);
  }

  /** The part of a reset under the lock, and its signals. */
  lemma CountersReset(s: State, total: nat, after: Program)
    requires s.gui == Then(Lock, Then(ResetCounters(total), Then(Unlock, SignalsProgram(after)))) && s.holder == Nobody
    ensures Happens(s, Repeat(GuiStep, 7), AfterReset(s, total, after))
  {
    var s1 := Next(s, GuiStep);
    var s2 := Next(s1, GuiStep);
    var s3 := Next(s2, GuiStep);
    assert s3 == s.(total := total, run := 0, failureCount := 0, failures := [], gui := SignalsProgram(after));
    SignalsRun(s3, after);
    hide Next, Enabled, SignalsProgram;
    OneMore(s2, GuiStep, Repeat(GuiStep, 4), AfterReset(s, total, after));
    OneMore(s1, GuiStep, Repeat(GuiStep, 5), AfterReset(s, total, after));
    OneMore(s, GuiStep, Repeat(GuiStep, 6), AfterReset(s, total, after));
  }

  /** What is left of a reset when it has found the thread not running, in its hands the lock. */
  function CheckProgram(total: nat, after: Program): Program {
    IfRunning(Then(Unlock, after),
              Then(Unlock, Then(Lock, Then(ResetCounters(total), Then(Unlock, SignalsProgram(after))))))
  }

  /** From a check that finds the thread not running, the reset runs through. */
  lemma CheckedResetRuns(s: State, total: nat, after: Program)
    requires s.gui == CheckProgram(total, after) && s.holder == HeldBy(Gui) && !s.running
    ensures Happens(s, Repeat(GuiStep, 9), AfterReset(s.(holder := Nobody), total, after))
  {
    var s2 := s.(holder := Nobody,
                 gui := Then(Lock, Then(ResetCounters(total), Then(Unlock, SignalsProgram(after)))));
    var last := AfterReset(s.(holder := Nobody), total, after);
    assert Enabled(s, GuiStep) && Enabled(Next(s, GuiStep), GuiStep) && Next(Next(s, GuiStep), GuiStep) == s2;
    assert AfterReset(s2, total, after) == last;
    CountersReset(s2, total, after);
    hide Next, Enabled, AfterReset, SignalsProgram;
    TwoMore(s, GuiStep, 7, last);
  }

  /** With the thread not running and the lock free, so does the whole reset. */
  lemma ResetRuns(s: State, total: nat, after: Program)
    requires s.gui == ResetProgram(total, after) && s.holder == Nobody && !s.running
    ensures Happens(s, Repeat(GuiStep, 10), AfterReset(s, total, after))
  {
    var check := s.(holder := HeldBy(Gui), gui := CheckProgram(total, after));
    assert Enabled(s, GuiStep) && Next(s, GuiStep) == check;
    CheckedResetRuns(check, total, after);
    assert AfterReset(check.(holder := Nobody), total, after) == AfterReset(s, total, after);
    hide Next, Enabled, AfterReset, CheckProgram, ResetProgram;
    OneMore(s, GuiStep, Repeat(GuiStep, 9), AfterReset(s, total, after));
  }

  /** The button that selects a test: counters, list and display are reset, and the number of tests is shown. */
  lemma ResetButton(s: State, total: nat)
    requires s.gui == Return && s.enabled && s.holder == Nobody && !s.running
    ensures Happens(s, [RequestReset(total)] + Repeat(GuiStep, 10),
                    s.(total := total, run := 0, failureCount := 0, failures := [], shownList := [], shownTotal := total,
                       shownRun := 0, shownRuns := s.shownRuns + [0], shownFailures := 0))
  {
    var requested := s.(gui := ResetProgram(total, Return));
    assert Enabled(s, RequestReset(total)) && Next(s, RequestReset(total)) == requested;
    assert s.(gui := Return) == s;
    ResetRuns(requested, total, Return);
    ResetForgets(s, ResetProgram(total, Return), total, Return);
    hide Next, Enabled, ResetProgram;
    OneMore(s, RequestReset(total), Repeat(GuiStep, 10), AfterReset(requested, total, Return));
  }

  // ---------- the whole queue is delivered ----------

  /** The state after the GUI thread has processed every event. */
  function AllDelivered(s: State): State
    decreases |s.queue|
  {
    if s.queue == [] then s else AllDelivered(Delivered(s))
  }

  lemma {:induction false} DeliveriesRun(s: State)
    requires s.gui == Return
    ensures Happens(s, Repeat(Deliver, |s.queue|), AllDelivered(s))
    decreases |s.queue|
  {
    if s.queue != [] {
      DeliveriesRun(Delivered(s));
      hide Delivered, Happens;
      OneMore(s, Deliver, Repeat(Deliver, |s.queue| - 1), AllDelivered(s));
    }
  }

  /** What processing the first event changes, and what it leaves alone. */
  lemma FirstShown(s: State)
    requires s.queue != []
    ensures Delivered(s).run == s.run && Delivered(s).failureCount == s.failureCount && Delivered(s).failures == s.failures
    ensures Delivered(s).queue == s.queue[1..]
    ensures Delivered(s).shownRun == if s.queue[0].RunCount? then s.queue[0].count else s.shownRun
    ensures !s.queue[0].FailureCount? ==> Delivered(s).shownFailures == s.shownFailures
    ensures Delivered(s).shownList == if s.queue[0].FailureCount? then s.shownList + [s.queue[0].failure] else s.shownList
  {
    match s.queue[0]
    case RunCount(_) =>
    case FailureCount(_, _) =>
    case Finished =>
  }

  /** Deliveries leave the counters alone, display the last run count, and list every announced failure. */
  lemma {:induction false} AllShown(s: State)
    ensures AllDelivered(s).run == s.run && AllDelivered(s).failureCount == s.failureCount
    ensures AllDelivered(s).failures == s.failures
    ensures RunCounts(s.queue) == [] ==> AllDelivered(s).shownRun == s.shownRun
    ensures RunCounts(s.queue) != [] ==> AllDelivered(s).shownRun in RunCounts(s.queue)
    ensures Announced(s.queue) == [] ==>
              AllDelivered(s).shownFailures == s.shownFailures && AllDelivered(s).shownList == s.shownList
    ensures |AllDelivered(s).shownList| == |s.shownList| + |Announced(s.queue)|
    decreases |s.queue|
  {
    if s.queue != [] {
      FirstShown(s);
      hide Delivered;
      AllShown(Delivered(s));
    }
  }

  /** Without running thread the pending counts are the queued ones, and none of them is zero. */
  lemma CountsArePositive(s: State)
    requires CountInv(s) && s.gui == Return && s.runner == Idle
    ensures forall n :: n in RunCounts(s.queue) ==> n > 0
  {
    assert PendingRuns(s.queue, s.runner, s.captured) == RunCounts(s.queue);
  }

  // ---------- what the runner does between the request and the check ----------

  predicate ByRunner(a: Action) { a.RunnerStep? || a.EndTest? || a.AddFailure? || a.Finish? }

  predicate AllByRunner(actions: seq<Action>) { forall a :: a in actions ==> ByRunner(a) }

  /** The runner does not look at what the GUI thread has still to do. */
  lemma IgnoresGui(s: State, a: Action, gui: Program)
    requires ByRunner(a) && Enabled(s, a)
    ensures Enabled(s.(gui := gui), a) && Next(s.(gui := gui), a) == Next(s, a).(gui := gui) && Next(s, a).gui == s.gui
  {
    hide RunnerNext;
    match a
    case RunnerStep =>
      StepIgnoresGui(s, gui);
      StepIgnoresGui(s, s.gui);
      assert s.(gui := s.gui) == s;
    case EndTest =>
    case AddFailure(_) =>
    case Finish =>
  }

  lemma StepIgnoresGui(s: State, gui: Program)
    requires s.runner != Idle && s.runner != Between
    ensures RunnerNext(s.(gui := gui)) == RunnerNext(s).(gui := gui)
  {
    hide RunnerNext;
    match s.runner
    case Ending(place) =>
      if place == WantsLock || place == Inside {
        EndingEnters(s, gui);
      } else {
        EndingLeaves(s, gui);
      }
    case Failing(_, place) =>
      if place == WantsLock || place == Inside {
        FailingEnters(s, gui);
      } else {
        FailingLeaves(s, gui);
      }
    case Finishing => FinishIgnoresGui(s, gui);
    case Exiting => FinishIgnoresGui(s, gui);
  }

  lemma EndingEnters(s: State, gui: Program)
    requires s.runner.Ending? && (s.runner.place == WantsLock || s.runner.place == Inside)
    ensures RunnerNext(s.(gui := gui)) == RunnerNext(s).(gui := gui)
  {
  }

  lemma EndingLeaves(s: State, gui: Program)
    requires s.runner.Ending? && (s.runner.place == Leaving || s.runner.place == Posting)
    ensures RunnerNext(s.(gui := gui)) == RunnerNext(s).(gui := gui)
  {
  }

  lemma FailingEnters(s: State, gui: Program)
    requires s.runner.Failing? && (s.runner.place == WantsLock || s.runner.place == Inside)
    ensures RunnerNext(s.(gui := gui)) == RunnerNext(s).(gui := gui)
  {
  }

  lemma FailingLeaves(s: State, gui: Program)
    requires s.runner.Failing? && (s.runner.place == Leaving || s.runner.place == Posting)
    ensures RunnerNext(s.(gui := gui)) == RunnerNext(s).(gui := gui)
  {
  }

  lemma FinishIgnoresGui(s: State, gui: Program)
    requires s.runner == Finishing || s.runner == Exiting
    ensures RunnerNext(s.(gui := gui)) == RunnerNext(s).(gui := gui)
  {
  }

  lemma {:induction false} GuiIgnored(s: State, actions: seq<Action>, last: State, gui: Program)
    requires AllByRunner(actions) && Happens(s, actions, last)
    ensures Happens(s.(gui := gui), actions, last.(gui := gui)) && last.gui == s.gui
    decreases actions
  {
    if actions != [] {
      assert actions[0] in actions;
      IgnoresGui(s, actions[0], gui);
      hide Next, Enabled;
      GuiIgnored(Next(s, actions[0]), actions[1..], last, gui);
    }
  }

  /** While the GUI thread holds the lock, the runner only does what it would do with the lock free. */
  lemma IgnoresLock(s: State, a: Action)
    requires ByRunner(a) && Enabled(s, a) && s.holder == HeldBy(Gui) && !Critical(s.runner)
    ensures Enabled(s.(holder := Nobody), a) && Next(s.(holder := Nobody), a) == Next(s, a).(holder := Nobody)
    ensures Next(s, a).holder == HeldBy(Gui) && !Critical(Next(s, a).runner)
  {
    hide RunnerNext;
    match a
    case RunnerStep => StepIgnoresLock(s);
    case EndTest =>
    case AddFailure(_) =>
    case Finish =>
  }

  lemma StepIgnoresLock(s: State)
    requires s.runner != Idle && s.runner != Between && s.holder == HeldBy(Gui)
    requires !Critical(s.runner) && !WantsTheLock(s.runner)
    ensures RunnerNext(s.(holder := Nobody)) == RunnerNext(s).(holder := Nobody)
    ensures RunnerNext(s).holder == HeldBy(Gui) && !Critical(RunnerNext(s).runner)
  {
    match s.runner
    case Ending(_) =>
    case Failing(_, _) =>
    case Finishing =>
    case Exiting =>
  }

  lemma {:induction false} LockIgnored(s: State, actions: seq<Action>, last: State)
    requires AllByRunner(actions) && Happens(s, actions, last) && s.holder == HeldBy(Gui) && !Critical(s.runner)
    ensures Happens(s.(holder := Nobody), actions, last.(holder := Nobody)) && last.holder == HeldBy(Gui)
    decreases actions
  {
    if actions != [] {
      assert actions[0] in actions;
      IgnoresLock(s, actions[0]);
      hide Next, Enabled, Critical;
      LockIgnored(Next(s, actions[0]), actions[1..], last);
    }
  }

  lemma NoneEnabled(s: State, a: Action)
    requires ByRunner(a) && s.runner == Idle
    ensures !Enabled(s, a)
  {
  }

  /** Without a thread there is nothing it does. */
  lemma NoThreadNoAction(s: State, actions: seq<Action>, last: State)
    requires AllByRunner(actions) && Happens(s, actions, last) && s.runner == Idle
    ensures last == s
  {
    hide Enabled;
    if actions != [] {
      assert actions[0] in actions;
      NoneEnabled(s, actions[0]);
    }
  }

  lemma RunnerIsGated(actions: seq<Action>)
    requires AllByRunner(actions)
    ensures forall a :: a in actions ==> Gated(a)
  {
  }

  /** The state as it would be with the GUI thread back in its event loop and the lock free. */
  function Settled(s: State): State { s.(holder := Nobody, gui := Return) }

  /**
   * A reset requested from the event loop has come to its check: before and after it took the lock, the runner
   * did whatever it did.
   */
  ghost predicate AtCheck(s: State, total: nat, first: seq<Action>, locking: State, second: seq<Action>, check: State) {
    s.gui == Return && AllByRunner(first) && AllByRunner(second) &&
    Happens(Next(s, UngatedReset(total)), first, locking) && Enabled(locking, GuiStep) &&
    Happens(Next(locking, GuiStep), second, check)
  }

  /** Up to the check nothing is lost: but for the lock and the program, the state is one the dialog could be in anyway. */
  lemma CheckFindsAll(s: State, total: nat, first: seq<Action>, locking: State, second: seq<Action>, check: State)
    requires Inv(s) && AtCheck(s, total, first, locking, second, check)
    ensures Inv(Settled(check))
    ensures check.gui == CheckProgram(total, Return) && check.holder == HeldBy(Gui)
    ensures s.runner == Idle ==> check.queue == s.queue
  {
    var locked := locking.(holder := HeldBy(Gui), gui := CheckProgram(total, Return));
    RequestReached(s, total, first, locking);
    hide Happens, Next, Enabled, Inv, CheckProgram, Critical, ResetProgram;
    RunnerIsGated(second);
    LockIgnored(locked, second, check);
    GuiIgnored(locked, second, check, check.gui);
    GuiIgnored(locked.(holder := Nobody), second, check.(holder := Nobody), Return);
    RunsKeep(Settled(locked), second, Settled(check));
    if s.runner == Idle {
      NoThreadNoAction(locked, second, check);
    }
  }

  /** The first half of the way: the lock is taken. */
  lemma RequestReached(s: State, total: nat, first: seq<Action>, locking: State)
    requires Inv(s) && s.gui == Return && AllByRunner(first)
    requires Happens(Next(s, UngatedReset(total)), first, locking) && Enabled(locking, GuiStep)
    ensures Next(locking, GuiStep) == locking.(holder := HeldBy(Gui), gui := CheckProgram(total, Return))
    ensures Inv(Settled(locking)) && !Critical(locking.runner)
    ensures s.runner == Idle ==> locking.queue == s.queue && locking.runner == Idle
  {
    var requested := s.(gui := ResetProgram(total, Return));
    assert Next(s, UngatedReset(total)) == requested && requested.(gui := Return) == s;
    GuiIgnored(requested, first, locking, Return);
    RunnerIsGated(first);
    LocksFirst(locking, total);
    hide Happens, Next, Enabled, Inv, ResetProgram, CheckProgram;
    RunsKeep(s, first, locking.(gui := Return));
    LockFree(locking);
    if s.runner == Idle {
      NoThreadNoAction(requested, first, locking);
    }
  }

  lemma LocksFirst(s: State, total: nat)
    requires s.gui == ResetProgram(total, Return) && Enabled(s, GuiStep)
    ensures s.holder == Nobody && Next(s, GuiStep) == s.(holder := HeldBy(Gui), gui := CheckProgram(total, Return))
  {
  }

  /** With the lock free nobody is in a critical section. */
  lemma LockFree(s: State)
    requires Inv(s.(gui := Return)) && s.holder == Nobody
    ensures !Critical(s.runner) && s.(gui := Return) == Settled(s)
  {
  }

  /**
   * The check that no test is running is not enough for a reset. Whatever the runner did since the reset was
   * requested from the event loop, and whenever the check finds it gone, the reset runs through; once the queued
   * events have been processed as well, the dialog shows what the model counts if and only if the queue held no
   * run count and no failure at the check. Only if the thread was gone at the request already, that is the queue
   * at the request.
   */
  lemma ResetNeedsEmptyQueue(s: State, total: nat, first: seq<Action>, locking: State, second: seq<Action>, check: State)
    requires Inv(s) && AtCheck(s, total, first, locking, second, check) && !check.running
    ensures Happens(check, Repeat(GuiStep, 9) + Repeat(Deliver, |check.queue|),
                    AllDelivered(AfterReset(Settled(check), total, Return)))
    ensures Agrees(AllDelivered(AfterReset(Settled(check), total, Return))) <==>
            RunCounts(check.queue) == [] && Announced(check.queue) == []
    ensures s.runner == Idle ==> check.queue == s.queue
  {
    CheckFindsAll(s, total, first, locking, second, check);
    CountsArePositive(Settled(check));
    CheckedResetRuns(check, total, Return);
    var after := AfterReset(Settled(check), total, Return);
    assert AfterReset(check.(holder := Nobody), total, Return) == after;
    AllShown(after);
    hide Inv, Happens, AtCheck, Next, AllDelivered, RunCounts, Announced;
    DeliveriesRun(after);
    HappensThen(check, Repeat(GuiStep, 9), after, Repeat(Deliver, |check.queue|), AllDelivered(after));
  }

  /** A check that finds the thread running changes nothing: two steps later the dialog is where it could be anyway. */
  lemma ResetRefused(s: State, total: nat, first: seq<Action>, locking: State, second: seq<Action>, check: State)
    requires Inv(s) && AtCheck(s, total, first, locking, second, check) && check.running
    ensures Happens(check, Repeat(GuiStep, 2), Settled(check)) && Inv(Settled(check))
  {
    CheckFindsAll(s, total, first, locking, second, check);
    assert Enabled(check, GuiStep) && Enabled(Next(check, GuiStep), GuiStep);
    assert Next(Next(check, GuiStep), GuiStep) == Settled(check);
    Nothing(Settled(check), GuiStep);
    hide Next, Enabled;
    TwoMore(check, GuiStep, 0, Settled(check));
  }

  // ---------- a run of the dialog that gets there ----------

  /** What the run button leaves behind: the counters reset, the buttons disabled, the thread in the tests. */
  function AfterStart(s: State, total: nat): State {
    AfterReset(s, total, Return).(result := true, stopped := false, enabled := false, runner := Between, running := true)
  }

  /** The run button, pressed with the thread gone and the lock free: the thread is started after the reset. */
  lemma RunStarts(s: State, total: nat)
    requires s.gui == Return && s.enabled && s.holder == Nobody && !s.running
    ensures Happens(s, [RequestRun(total)] + Repeat(GuiStep, 20), AfterStart(s, total))
  {
    var pressed, checked := RunChecks(s, total);
    ResetAndStart(s, total, checked);
    hide Next, Enabled, Happens, AfterStart;
    ThreeMore(pressed, GuiStep, 17, AfterStart(s, total));
    OneMore(s, RequestRun(total), Repeat(GuiStep, 20), AfterStart(s, total));
  }

  lemma ResetAndStart(s: State, total: nat, checked: State)
    requires s.holder == Nobody && !s.running && checked == s.(gui := ResetProgram(total, START_PROGRAM))
    ensures Happens(checked, Repeat(GuiStep, 17), AfterStart(s, total))
  {
    hide Happens, AfterReset, AfterStart, ResetProgram, Repeat;
    ResetForgets(s, ResetProgram(total, START_PROGRAM), total, START_PROGRAM);
    ResetRuns(checked, total, START_PROGRAM);
    StartAfterReset(s, total);
    RepeatAdds(GuiStep, 10, 7);
    HappensThen(checked, Repeat(GuiStep, 10), AfterReset(s, total, START_PROGRAM), Repeat(GuiStep, 7), AfterStart(s, total));
  }

  /** A reset does not depend on what the GUI thread had still to do. */
  lemma ResetForgets(s: State, gui: Program, total: nat, after: Program)
    ensures AfterReset(s.(gui := gui), total, after) == AfterReset(s, total, after)
  {
  }

  lemma StartAfterReset(s: State, total: nat)
    requires s.holder == Nobody
    ensures Happens(AfterReset(s, total, START_PROGRAM), Repeat(GuiStep, 7), AfterStart(s, total))
  {
    StartRuns(AfterReset(s, total, START_PROGRAM), AfterStart(s, total));
  }

  lemma RunChecks(s: State, total: nat) returns (pressed: State, checked: State)
    requires s.gui == Return && s.enabled && s.holder == Nobody && !s.running
    ensures Enabled(s, RequestRun(total)) && pressed == Next(s, RequestRun(total))
    ensures Enabled(pressed, GuiStep) && Enabled(Next(pressed, GuiStep), GuiStep)
    ensures Enabled(Next(Next(pressed, GuiStep), GuiStep), GuiStep)
    ensures checked == Next(Next(Next(pressed, GuiStep), GuiStep), GuiStep)
    ensures checked == s.(gui := ResetProgram(total, START_PROGRAM))
  {
    pressed := s.(gui := RunProgram(total));
    checked := s.(gui := ResetProgram(total, START_PROGRAM));
  }

  lemma ThreeMore(s: State, a: Action, n: nat, last: State)
    requires Enabled(s, a) && Enabled(Next(s, a), a) && Enabled(Next(Next(s, a), a), a)
    requires Happens(Next(Next(Next(s, a), a), a), Repeat(a, n), last)
    ensures Happens(s, Repeat(a, n + 3), last)
  {
    hide Next, Enabled;
    OneMore(Next(Next(s, a), a), a, Repeat(a, n), last);
    TwoMore(s, a, n + 1, last);
  }

  lemma {:induction false} RepeatAdds(a: Action, m: nat, n: nat)
    ensures Repeat(a, m) + Repeat(a, n) == Repeat(a, m + n)
  {
    if m > 0 {
      RepeatAdds(a, m - 1, n);
      Concat3([a], Repeat(a, m - 1), Repeat(a, n));
    }
  }

  lemma StartRuns(s: State, last: State)
    requires s.gui == START_PROGRAM && s.holder == Nobody
    requires last == s.(result := true, stopped := false, enabled := false, runner := Between, running := true, gui := Return)
    ensures Happens(s, Repeat(GuiStep, 7), last)
  {
    var s3 := Next(Next(Next(s, GuiStep), GuiStep), GuiStep);
    var s5 := Next(Next(s3, GuiStep), GuiStep);
    assert s3 == s.(result := true, stopped := false, gui := Then(EmitStarted, Then(Lock, Then(StartThread, Then(Unlock, Return)))));
    assert s5 == s3.(enabled := false, holder := HeldBy(Gui), gui := Then(StartThread, Then(Unlock, Return)));
    Nothing(last, GuiStep);
    TwoMore(s5, GuiStep, 0, last);
    TwoMore(s3, GuiStep, 2, last);
    ThreeMore(s, GuiStep, 4, last);
  }

  /** A failure that the runner thread records and posts without being interrupted. */
  lemma FailureRuns(s: State, f: nat)
    requires s.runner == Between && s.holder == Nobody
    ensures Happens(s, [AddFailure(f)] + Repeat(RunnerStep, 4),
                    s.(failures := s.failures + [f], failureCount := s.failureCount + 1, captured := s.failureCount + 1,
                       queue := s.queue + [FailureCount(f, s.failureCount + 1)]))
  {
    var s0, s2, s4 := FailureSteps(s, f);
    hide Next, Enabled;
    Nothing(s4, RunnerStep);
    TwoMore(s2, RunnerStep, 0, s4);
    TwoMore(s0, RunnerStep, 2, s4);
    OneMore(s, AddFailure(f), Repeat(RunnerStep, 4), s4);
  }

  lemma FailureSteps(s: State, f: nat) returns (s0: State, s2: State, s4: State)
    requires s.runner == Between && s.holder == Nobody
    ensures Enabled(s, AddFailure(f)) && s0 == Next(s, AddFailure(f))
    ensures Enabled(s0, RunnerStep) && Enabled(Next(s0, RunnerStep), RunnerStep) && s2 == Next(Next(s0, RunnerStep), RunnerStep)
    ensures Enabled(s2, RunnerStep) && Enabled(Next(s2, RunnerStep), RunnerStep) && s4 == Next(Next(s2, RunnerStep), RunnerStep)
    ensures s4 == s.(failures := s.failures + [f], failureCount := s.failureCount + 1, captured := s.failureCount + 1,
                     queue := s.queue + [FailureCount(f, s.failureCount + 1)])
  {
    s0 := s.(runner := Failing(f, WantsLock));
    s2 := s.(runner := Failing(f, Leaving), holder := HeldBy(Runner), failures := s.failures + [f],
             failureCount := s.failureCount + 1, captured := s.failureCount + 1);
    s4 := s.(failures := s.failures + [f], failureCount := s.failureCount + 1, captured := s.failureCount + 1,
             queue := s.queue + [FailureCount(f, s.failureCount + 1)]);
  }

  /** The end of a test, likewise. */
  lemma TestEnds(s: State)
    requires s.runner == Between && s.holder == Nobody
    ensures Happens(s, [EndTest] + Repeat(RunnerStep, 4),
                    s.(run := s.run + 1, captured := s.run + 1, queue := s.queue + [RunCount(s.run + 1)]))
  {
    var s0, s2, s4 := EndSteps(s);
    hide Next, Enabled;
    Nothing(s4, RunnerStep);
    TwoMore(s2, RunnerStep, 0, s4);
    TwoMore(s0, RunnerStep, 2, s4);
    OneMore(s, EndTest, Repeat(RunnerStep, 4), s4);
  }

  lemma EndSteps(s: State) returns (s0: State, s2: State, s4: State)
    requires s.runner == Between && s.holder == Nobody
    ensures Enabled(s, EndTest) && s0 == Next(s, EndTest)
    ensures Enabled(s0, RunnerStep) && Enabled(Next(s0, RunnerStep), RunnerStep) && s2 == Next(Next(s0, RunnerStep), RunnerStep)
    ensures Enabled(s2, RunnerStep) && Enabled(Next(s2, RunnerStep), RunnerStep) && s4 == Next(Next(s2, RunnerStep), RunnerStep)
    ensures s4 == s.(run := s.run + 1, captured := s.run + 1, queue := s.queue + [RunCount(s.run + 1)])
  {
    s0 := s.(runner := Ending(WantsLock));
    s2 := s.(runner := Ending(Leaving), holder := HeldBy(Runner), run := s.run + 1, captured := s.run + 1);
    s4 := s.(run := s.run + 1, captured := s.run + 1, queue := s.queue + [RunCount(s.run + 1)]);
  }

  /** The tests are over: the finished event is posted and the thread goes. */
  lemma ThreadEnds(s: State)
    requires s.runner == Between
    ensures Happens(s, [Finish] + Repeat(RunnerStep, 2), s.(queue := s.queue + [Finished], runner := Idle, running := false))
  {
    var s0 := Next(s, Finish);
    var s2 := Next(Next(s0, RunnerStep), RunnerStep);
    Nothing(s2, RunnerStep);
    TwoMore(s0, RunnerStep, 0, s2);
    OneMore(s, Finish, Repeat(RunnerStep, 2), s2);
  }

  /** One test that fails once, run by pressing the run button, before any of its events is processed. */
  const ONE_TEST := [RequestRun(1)] + Repeat(GuiStep, 20) + ITS_PART

  const STARTED :=
    State(Nobody, 1, 0, 0, [], true, false, true, Between, 0, Return, [], false, 1, 0, 0, [], [0, 0])

  const ENDED :=
    State(Nobody, 1, 1, 1, [7], true, false, false, Idle, 1, Return, [FailureCount(7, 1), RunCount(1), Finished], false,
          1, 0, 0, [], [0, 0])

  /** With nothing but the buttons, the thread is gone while a failure, a run count and the finished event are queued. */
  lemma ThreadGoneEventsQueued()
    ensures Happens(INITIAL, ONE_TEST, ENDED) && forall a :: a in ONE_TEST ==> Gated(a)
  {
    FirstStretch();
    ItsPart();
    GatedRepeat(GuiStep, 20);
    hide Happens, Repeat;
    HappensThen(INITIAL, [RequestRun(1)] + Repeat(GuiStep, 20), STARTED, ITS_PART, ENDED);
  }

  lemma FirstStretch()
    ensures Happens(INITIAL, [RequestRun(1)] + Repeat(GuiStep, 20), STARTED)
  {
    RunStarts(INITIAL, 1);
    assert [0] + [0] == [0, 0];
    hide Happens, Repeat;
  }

  lemma ItsPart()
    ensures Happens(STARTED, ITS_PART, ENDED) && AllByRunner(ITS_PART) && forall a :: a in ITS_PART ==> Gated(a)
  {
    var failed := STARTED.(failures := [7], failureCount := 1, captured := 1, queue := [FailureCount(7, 1)]);
    var tested := failed.(run := 1, captured := 1, queue := [FailureCount(7, 1), RunCount(1)]);
    var failure, test := [AddFailure(7)] + Repeat(RunnerStep, 4), [EndTest] + Repeat(RunnerStep, 4);
    FailsOnce(failed);
    TestEnds(failed);
    ThreadEnds(tested);
    ByRunnerRepeat(4);
    ByRunnerRepeat(2);
    hide Happens, Repeat;
    assert tested.queue + [Finished] == ENDED.queue && failed.queue + [RunCount(1)] == tested.queue;
    HappensThen(STARTED, failure, failed, test, tested);
    HappensThen(STARTED, failure + test, tested, [Finish] + Repeat(RunnerStep, 2), ENDED);
    RunnerIsGated(ITS_PART);
  }

  lemma FailsOnce(failed: State)
    requires failed == STARTED.(failures := [7], failureCount := 1, captured := 1, queue := [FailureCount(7, 1)])
    ensures Happens(STARTED, [AddFailure(7)] + Repeat(RunnerStep, 4), failed)
  {
    FailureRuns(STARTED, 7);
    var none: seq<nat>, empty: seq<QtEvent> := [], [];
    assert none + [7] == [7] && empty + [FailureCount(7, 1)] == [FailureCount(7, 1)];
    hide Happens, Repeat;
  }

  lemma {:induction false} ByRunnerRepeat(n: nat)
    ensures AllByRunner(Repeat(RunnerStep, n))
  {
    if n > 0 {
      ByRunnerRepeat(n - 1);
    }
  }

  lemma {:induction false} GatedRepeat(a: Action, n: nat)
    requires Gated(a)
    ensures forall b :: b in Repeat(a, n) ==> Gated(b)
  {
    if n > 0 {
      GatedRepeat(a, n - 1);
    }
  }

  lemma Requested(s: State, total: nat)
    requires s.gui == Return
    ensures Enabled(s, UngatedReset(total)) && Next(s, UngatedReset(total)) == s.(gui := ResetProgram(total, Return))
  {
  }

  /** From a request with the lock free and the thread gone, everything happens without interruption. */
  lemma ResetAndDeliver(s: State, total: nat)
    requires s.gui == ResetProgram(total, Return) && s.holder == Nobody && !s.running
    ensures Happens(s, Repeat(GuiStep, 10) + Repeat(Deliver, |s.queue|), AllDelivered(AfterReset(s, total, Return)))
  {
    ResetRuns(s, total, Return);
    DeliveriesRun(AfterReset(s, total, Return));
    hide Happens, ResetProgram;
    HappensThen(s, Repeat(GuiStep, 10), AfterReset(s, total, Return), Repeat(Deliver, |s.queue|),
                AllDelivered(AfterReset(s, total, Return)));
  }

  const STALE := AllDelivered(AfterReset(ENDED, 1, Return))

  /** The dialog then shows a run and a failure, the model has none. */
  lemma StaleIsWrong()
    ensures STALE.run == 0 && STALE.failures == [] && STALE.shownRun == 1 && STALE.shownList == [7] && !Agrees(STALE)
  {
    ThreeDelivered(AfterReset(ENDED, 1, Return));
  }

  /** The first way: with the thread gone, a reset past the buttons, and then the events still queued. */
  lemma StaleCountsShown()
    ensures Happens(INITIAL, ONE_TEST + ([UngatedReset(1)] + (Repeat(GuiStep, 10) + Repeat(Deliver, 3))), STALE)
    ensures STALE.run == 0 && STALE.shownRun == 1 && STALE.shownList == [7] && !Agrees(STALE)
  {
    StaleIsWrong();
    ThreadGoneEventsQueued();
    RequestedEnded();
    Requested(ENDED, 1);
    hide Happens, Next, Enabled, Repeat;
    OneMore(ENDED, UngatedReset(1), Repeat(GuiStep, 10) + Repeat(Deliver, 3), STALE);
    HappensThen(INITIAL, ONE_TEST, ENDED, [UngatedReset(1)] + (Repeat(GuiStep, 10) + Repeat(Deliver, 3)), STALE);
  }

  lemma RequestedEnded()
    ensures Happens(ENDED.(gui := ResetProgram(1, Return)), Repeat(GuiStep, 10) + Repeat(Deliver, 3), STALE)
  {
    ResetAndDeliver(ENDED.(gui := ResetProgram(1, Return)), 1);
    ResetForgets(ENDED, ResetProgram(1, Return), 1, Return);
  }

  /** What the runner does in that run once it has been started. */
  const ITS_PART :=
    [AddFailure(7)] + Repeat(RunnerStep, 4) + ([EndTest] + Repeat(RunnerStep, 4)) + ([Finish] + Repeat(RunnerStep, 2))

  /**
   * The second way: the reset is requested while the tests run and nothing is queued, and the whole test runs
   * before the check is made.
   */
  lemma StaleCountsAfterRace()
    ensures Happens(INITIAL, [RequestRun(1)] + Repeat(GuiStep, 20), STARTED) && STARTED.queue == [] && STARTED.running
    ensures Happens(STARTED, [UngatedReset(1)] + (ITS_PART + (Repeat(GuiStep, 10) + Repeat(Deliver, 3))), STALE)
    ensures !Agrees(STALE)
  {
    StaleIsWrong();
    FirstStretch();
    ItsPart();
    RequestedEnded();
    Requested(STARTED, 1);
    hide Happens, Next, Enabled, Repeat;
    GuiIgnored(STARTED, ITS_PART, ENDED, ResetProgram(1, Return));
    HappensThen(STARTED.(gui := ResetProgram(1, Return)), ITS_PART, ENDED.(gui := ResetProgram(1, Return)),
                Repeat(GuiStep, 10) + Repeat(Deliver, 3), STALE);
    OneMore(STARTED, UngatedReset(1), ITS_PART + (Repeat(GuiStep, 10) + Repeat(Deliver, 3)), STALE);
  }

  lemma ThreeDelivered(s: State)
    requires s.queue == [FailureCount(7, 1), RunCount(1), Finished] && s.shownList == []
    ensures AllDelivered(s).shownRun == 1 && AllDelivered(s).shownList == [7]
    ensures AllDelivered(s).run == s.run && AllDelivered(s).failures == s.failures
  {
    hide Delivered;
    FirstShown(s);
    var s1 := Delivered(s);
    assert s1.queue == [RunCount(1), Finished];
    FirstShown(s1);
    var s2 := Delivered(s1);
    assert s2.queue == [Finished];
    FirstShown(s2);
    assert AllDelivered(s) == AllDelivered(s1) == AllDelivered(s2) == Delivered(s2);
  }
}
