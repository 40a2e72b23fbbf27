/** What holds in every interleaving of the two threads of the graphical test runner. */
module RunnerProperties {
  import opened Sequences
  import opened RunnerModel

  // ---------- the programs of the GUI thread ----------

  /** The program will do this before it branches or resets the counters. */
  predicate Owes(prog: Program, op: Op) {
    prog.Then? && (prog.op == op || (!prog.op.ResetCounters? && Owes(prog.next, op)))
  }

  /** The program will start the thread, and its signal that a run starts is already out. */
  predicate StartPending(prog: Program) {
    prog.Then? && (prog.op == StartThread || (prog.op != EmitStarted && StartPending(prog.next)))
  }

  predicate Touches(op: Op) { op != Lock && op != Unlock && op != RaiseStop }

  /** Somewhere in the program the counters, the display or the thread are touched. */
  predicate Commanding(prog: Program) {
    match prog
    case Return => false
    case Then(op, next) => Touches(op) || Commanding(next)
    case IfRunning(yes, no) => Commanding(yes) || Commanding(no)
    case IfResult(yes, no) => Commanding(yes) || Commanding(no)
  }

  /** They are touched even if the thread is found running: the program relies on its being idle. */
  predicate NeedsIdle(prog: Program) {
    match prog
    case Return => false
    case Then(op, next) => Touches(op) || NeedsIdle(next)
    case IfRunning(yes, no) => NeedsIdle(yes)
    case IfResult(yes, no) => NeedsIdle(yes) || NeedsIdle(no)
  }

  predicate UnderLock(op: Op) {
    op == Unlock || op.ResetCounters? || op == NewResult || op == StartThread || op == RaiseStop
  }

  /** What must follow an operation for the display to catch up, and what must not. */
  predicate Followed(op: Op, next: Program) {
    match op
    case ResetCounters(_) => Owes(next, EmitCleared) && Owes(next, EmitRun) && Owes(next, EmitFailures)
    case EmitStarted => StartPending(next)
    case StartThread => !Commanding(next)
    case EmitRun => !Owes(next, EmitRun)
    case EmitCleared => !Owes(next, EmitCleared) && Owes(next, EmitFailures)
    case EmitFailures => !Owes(next, EmitCleared) && !Owes(next, EmitFailures)
    case _ => true
  }

  /** Locks are taken and released in turn; shared data change only between, signals are emitted only outside. */
  predicate Shaped(prog: Program, held: bool) {
    match prog
    case Return => !held
    case Then(op, next) =>
      held == UnderLock(op) && Shaped(next, op == Lock || (held && op != Unlock)) && Followed(op, next)
    case IfRunning(yes, no) => held && Shaped(yes, true) && Shaped(no, true) && OwesNothing(yes) && OwesNothing(no)
    case IfResult(yes, no) => held && Shaped(yes, true) && Shaped(no, true) && OwesNothing(yes) && OwesNothing(no)
  }

  predicate OwesNothing(prog: Program) {
    !Owes(prog, EmitCleared) && !Owes(prog, EmitRun) && !Owes(prog, EmitFailures) && !StartPending(prog)
  }

  lemma StartIsShaped()
    ensures Shaped(START_PROGRAM, false) && OwesNothing(START_PROGRAM)
  {
    var end := Then(Unlock, Return);
    var start := Then(StartThread, end);
    var lock := Then(Lock, start);
    var signal := Then(EmitStarted, lock);
    assert Shaped(end, true) && !Commanding(end) && OwesNothing(end);
    assert Shaped(start, true) && StartPending(start) &&
           !Owes(start, EmitCleared) && !Owes(start, EmitRun) && !Owes(start, EmitFailures);
    assert Shaped(lock, false) && StartPending(lock) &&
           !Owes(lock, EmitCleared) && !Owes(lock, EmitRun) && !Owes(lock, EmitFailures);
    assert Shaped(signal, false) && OwesNothing(signal);
    var unlock := Then(Unlock, signal);
    assert Shaped(unlock, true) && OwesNothing(unlock);
    var result := Then(NewResult, unlock);
    assert Shaped(result, true) && OwesNothing(result);
    assert START_PROGRAM == Then(Lock, result);
  }

  /** The signals make up for what a reset owes. */
  lemma SignalsAreShaped(after: Program)
    requires Shaped(after, false) && OwesNothing(after)
    ensures var signals := SignalsProgram(after);
            Shaped(signals, false) && Owes(signals, EmitCleared) && Owes(signals, EmitRun) && Owes(signals, EmitFailures) &&
            !StartPending(signals)
  {
    var failures := Then(EmitFailures, after);
    var run := Then(EmitRun, failures);
    var all := Then(EmitTotal, run);
    assert Shaped(failures, false) && Owes(failures, EmitFailures) &&
           !Owes(failures, EmitCleared) && !Owes(failures, EmitRun);
    assert Shaped(run, false) && Owes(run, EmitRun) && Owes(run, EmitFailures) && !Owes(run, EmitCleared);
    assert Shaped(all, false) && Owes(all, EmitRun) && Owes(all, EmitFailures) && !Owes(all, EmitCleared);
    assert !StartPending(failures) && !StartPending(run) && !StartPending(all);
    assert SignalsProgram(after) == Then(EmitCleared, all);
  }

  lemma ResetIsShaped(total: nat, after: Program)
    requires Shaped(after, false) && OwesNothing(after)
    ensures Shaped(ResetProgram(total, after), false) && OwesNothing(ResetProgram(total, after))
    ensures NeedsIdle(ResetProgram(total, after)) <==> NeedsIdle(after)
  {
    SignalsAreShaped(after);
    hide SignalsProgram;
    assert OwesNothing(after);
    var unlock := Then(Unlock, SignalsProgram(after));
    assert Shaped(unlock, true) && Owes(unlock, EmitCleared) && Owes(unlock, EmitRun) && Owes(unlock, EmitFailures);
    var reset := Then(ResetCounters(total), unlock);
    assert !StartPending(unlock);
    assert Shaped(reset, true) && OwesNothing(reset);
    var no := Then(Unlock, Then(Lock, reset));
    assert !StartPending(unlock) && !StartPending(reset);
    assert Shaped(Then(Lock, reset), false) && OwesNothing(Then(Lock, reset)) && Shaped(no, true) && OwesNothing(no);
    var yes := Then(Unlock, after);
    assert Shaped(yes, true) && OwesNothing(yes) && NeedsIdle(yes) == NeedsIdle(after);
    var check := IfRunning(yes, no);
    assert Shaped(check, true) && OwesNothing(check) && NeedsIdle(check) == NeedsIdle(yes);
    var program := Then(Lock, check);
    assert Shaped(program, false) && OwesNothing(program) && NeedsIdle(program) == NeedsIdle(check);
    assert ResetProgram(total, after) == program;
  }

  lemma RunIsShaped(total: nat)
    ensures Shaped(RunProgram(total), false) && !NeedsIdle(RunProgram(total)) && OwesNothing(RunProgram(total))
  {
    StartIsShaped();
    ResetIsShaped(total, START_PROGRAM);
    var yes, no := Then(Unlock, Return), Then(Unlock, ResetProgram(total, START_PROGRAM));
    assert Shaped(no, true) && OwesNothing(no) && Shaped(yes, true) && OwesNothing(yes) && !NeedsIdle(yes);
    var check := IfRunning(yes, no);
    assert Shaped(check, true) && !NeedsIdle(check);
    assert RunProgram(total) == Then(Lock, check);
  }

  lemma StopIsShaped()
    ensures Shaped(STOP_PROGRAM, false) && !Commanding(STOP_PROGRAM) && OwesNothing(STOP_PROGRAM)
  {
    var end := Then(Unlock, Return);
    var raise := Then(Unlock, Then(Lock, Then(RaiseStop, end)));
    assert Shaped(end, true) && OwesNothing(end) && !Commanding(end);
    assert Shaped(raise, true) && OwesNothing(raise) && !Commanding(raise);
    var running := Then(Unlock, Then(Lock, IfRunning(raise, end)));
    assert Shaped(running, true) && OwesNothing(running) && !Commanding(running);
    assert STOP_PROGRAM == Then(Lock, IfResult(running, end));
  }

  lemma {:induction false} CommandingCovers(prog: Program)
    ensures NeedsIdle(prog) ==> Commanding(prog)
    ensures !Commanding(prog) ==> OwesNothing(prog)
  {
    match prog
    case Return =>
    case Then(op, next) => CommandingCovers(next);
    case IfRunning(yes, no) => CommandingCovers(yes);
    case IfResult(yes, no) =>
      CommandingCovers(yes);
      CommandingCovers(no);
  }

  // ---------- the invariant ----------

  /** The run counts and the failures announced by queued events. */
  function RunCounts(queue: seq<QtEvent>): seq<nat> {
    if queue == [] then [] else (if queue[0].RunCount? then [queue[0].count] else []) + RunCounts(queue[1..])
  }

  function Announced(queue: seq<QtEvent>): seq<(nat, nat)> {
    if queue == [] then [] else
    (if queue[0].FailureCount? then [(queue[0].failure, queue[0].count)] else []) + Announced(queue[1..])
  }

  /** Queued or counted but not yet posted. */
  function PendingRuns(queue: seq<QtEvent>, runner: RunnerState, captured: nat): seq<nat> {
    RunCounts(queue) + if runner.Ending? && (runner.place == Leaving || runner.place == Posting) then [captured] else []
  }

  function PendingFailures(queue: seq<QtEvent>, runner: RunnerState, captured: nat): seq<(nat, nat)> {
    Announced(queue) +
    if runner.Failing? && (runner.place == Leaving || runner.place == Posting) then [(runner.failure, captured)] else []
  }

  /** The numbers from one after the first up to the second. */
  predicate Counts(pending: seq<nat>, from: nat, to: nat) {
    |pending| == to - from && forall i :: 0 <= i < |pending| ==> pending[i] == from + 1 + i
  }

  /** The failures from one index on, each with its number. */
  predicate Continues(pending: seq<(nat, nat)>, failures: seq<nat>, shown: nat) {
    shown <= |failures| && |pending| == |failures| - shown &&
    forall i :: 0 <= i < |pending| ==> pending[i] == (failures[shown + i], shown + i + 1)
  }

  /** No events are on their way, and the runner thread is done. */
  predicate Quiet(s: State) { s.queue == [] && (s.runner == Idle || s.runner == Exiting) }

  /** The displayed counts go up by one or start again from zero. */
  predicate Gapless(shown: seq<nat>) {
    shown != [] && shown[0] == 0 && forall i :: 1 <= i < |shown| ==> shown[i] == shown[i - 1] + 1 || shown[i] == 0
  }

  predicate Critical(r: RunnerState) { (r.Ending? || r.Failing?) && (r.place == Inside || r.place == Leaving) }

  /** The lock is held by whoever is between taking and releasing it. */
  ghost predicate LockInv(s: State) {
    Shaped(s.gui, s.holder == HeldBy(Gui)) && (s.holder == HeldBy(Runner) <==> Critical(s.runner))
  }

  /** Run and reset programs find the runner thread gone and no events left; starting, it is still idle. */
  ghost predicate ThreadInv(s: State) {
    (s.running <==> s.runner != Idle) && (s.runner == Idle || !NeedsIdle(s.gui)) &&
    (Commanding(s.gui) ==> Quiet(s)) && (s.enabled ==> Quiet(s)) && (StartPending(s.gui) ==> !s.enabled)
  }

  /** The finished event is the last in the queue, and it comes: until then the buttons stay disabled. */
  ghost predicate FinishInv(s: State) {
    (forall i :: 0 <= i < |s.queue| && s.queue[i] == Finished ==>
       i == |s.queue| - 1 && !s.enabled && (s.runner == Idle || s.runner == Exiting)) &&
    (s.enabled || StartPending(s.gui) || (s.runner != Idle && s.runner != Exiting) || Finished in s.queue)
  }

  ghost predicate CountInv(s: State) {
    (if Owes(s.gui, EmitRun) then s.run == 0
     else Counts(PendingRuns(s.queue, s.runner, s.captured), s.shownRun, s.run)) &&
    Gapless(s.shownRuns) && s.shownRuns[|s.shownRuns| - 1] == s.shownRun
  }

  ghost predicate FailureInv(s: State) {
    s.failureCount == |s.failures| &&
    (if Owes(s.gui, EmitFailures) then s.failures == []
     else Continues(PendingFailures(s.queue, s.runner, s.captured), s.failures, s.shownFailures)) &&
    (!Owes(s.gui, EmitCleared) ==>
       if Owes(s.gui, EmitFailures) then s.shownList == []
       else s.shownFailures <= |s.failures| && s.shownList == s.failures[..s.shownFailures])
  }

  ghost predicate Inv(s: State) {
    LockInv(s) && ThreadInv(s) && FinishInv(s) && CountInv(s) && FailureInv(s)
  }

  lemma {:induction false} QueuePush(queue: seq<QtEvent>, e: QtEvent)
    ensures RunCounts(queue + [e]) == RunCounts(queue) + if e.RunCount? then [e.count] else []
    ensures Announced(queue + [e]) == Announced(queue) + if e.FailureCount? then [(e.failure, e.count)] else []
  {
    if queue == [] {
      assert queue + [e] == [e] && [e][1..] == [];
    } else {
      assert (queue + [e])[1..] == queue[1..] + [e] && (queue + [e])[0] == queue[0];
      QueuePush(queue[1..], e);
      Concat3(if queue[0].RunCount? then [queue[0].count] else [], RunCounts(queue[1..]), if e.RunCount? then [e.count] else []);
      Concat3(if queue[0].FailureCount? then [(queue[0].failure, queue[0].count)] else [], Announced(queue[1..]),
              if e.FailureCount? then [(e.failure, e.count)] else []);
    }
  }

  lemma InitialHolds()
    ensures Inv(INITIAL)
  {
    assert PendingRuns([], Idle, 0) == [] && PendingFailures([], Idle, 0) == [];
  }

  lemma RequestsKeep(s: State, a: Action)
    requires Inv(s) && Enabled(s, a) && (a.RequestRun? || a.RequestReset? || a.RequestStop?)
    ensures Inv(Next(s, a))
  {
    hide PendingRuns, PendingFailures, Counts, Continues, Gapless, RunProgram, ResetProgram, Shaped, Commanding, NeedsIdle;
    StopIsShaped();
    ReturnIsShaped();
    CommandingCovers(STOP_PROGRAM);
    if !a.RequestStop? {
      RunIsShaped(a.total);
      ResetIsShaped(a.total, Return);
    }
  }

  lemma ReturnIsShaped()
    ensures Shaped(Return, false) && !Shaped(Return, true)
    ensures OwesNothing(Return) && !NeedsIdle(Return) && !Commanding(Return)
  {
  }

  lemma CallbacksKeep(s: State, a: Action)
    requires Inv(s) && Enabled(s, a) && (a.EndTest? || a.AddFailure? || a.Finish?)
    ensures Inv(Next(s, a))
  {
    hide Counts, Continues, Gapless, Shaped, Commanding, NeedsIdle, RunCounts, Announced;
  }

  // ---------- steps of the runner thread ----------

  lemma RunnerKeepsOrder(s: State)
    requires LockInv(s) && ThreadInv(s) && FinishInv(s) && Enabled(s, RunnerStep)
    ensures LockInv(RunnerNext(s)) && ThreadInv(RunnerNext(s)) && FinishInv(RunnerNext(s))
  {
    hide Shaped, Commanding, NeedsIdle;
  }

  lemma RunnerKeepsCounts(s: State)
    requires ThreadInv(s) && CountInv(s) && Enabled(s, RunnerStep)
    ensures CountInv(RunnerNext(s))
  {
    hide Gapless, Commanding, NeedsIdle, RunCounts;
    OwesCommands(s.gui);
    RunsPosted(s.queue, s.runner, s.captured);
  }

  /** Counting adds a pending count, and posting it takes none away. */
  lemma RunsPosted(queue: seq<QtEvent>, runner: RunnerState, captured: nat)
    ensures RunCounts(queue) + [] == RunCounts(queue)
    ensures RunCounts(queue + [RunCount(captured)]) + [] == RunCounts(queue) + [captured]
    ensures RunCounts(queue + [Finished]) == RunCounts(queue)
    ensures runner.Failing? ==> RunCounts(queue + [FailureCount(runner.failure, captured)]) == RunCounts(queue)
  {
    QueuePush(queue, RunCount(captured));
    QueuePush(queue, Finished);
    if runner.Failing? {
      QueuePush(queue, FailureCount(runner.failure, captured));
    }
  }

  lemma RunnerKeepsFailures(s: State)
    requires ThreadInv(s) && FailureInv(s) && Enabled(s, RunnerStep)
    ensures FailureInv(RunnerNext(s))
  {
    hide Commanding, NeedsIdle, Announced;
    OwesCommands(s.gui);
    FailuresPosted(s.queue, s.runner, s.captured);
    if s.runner.Failing? {
      assert (s.failures + [s.runner.failure])[..s.shownFailures] == s.failures[..s.shownFailures] by {
        assert s.shownFailures <= |s.failures|;
      }
    }
  }

  lemma FailuresPosted(queue: seq<QtEvent>, runner: RunnerState, captured: nat)
    ensures Announced(queue) + [] == Announced(queue)
    ensures Announced(queue + [RunCount(captured)]) == Announced(queue)
    ensures Announced(queue + [Finished]) == Announced(queue)
    ensures runner.Failing? ==>
              Announced(queue + [FailureCount(runner.failure, captured)]) + [] == Announced(queue) + [(runner.failure, captured)]
  {
    QueuePush(queue, RunCount(captured));
    QueuePush(queue, Finished);
    if runner.Failing? {
      QueuePush(queue, FailureCount(runner.failure, captured));
    }
  }

  lemma OwesCommands(prog: Program)
    ensures !OwesNothing(prog) ==> Commanding(prog)
  {
    CommandingCovers(prog);
  }

  // ---------- deliveries ----------

  lemma DeliverKeepsOrder(s: State)
    requires LockInv(s) && ThreadInv(s) && FinishInv(s) && Enabled(s, Deliver)
    ensures LockInv(Delivered(s)) && ThreadInv(Delivered(s)) && FinishInv(Delivered(s))
  {
    var rest := s.queue[1..];
    assert forall i :: 0 <= i < |rest| ==> rest[i] == s.queue[i + 1];
  }

  lemma DeliverKeepsCounts(s: State)
    requires CountInv(s) && Enabled(s, Deliver)
    ensures CountInv(Delivered(s))
  {
    var pending := PendingRuns(s.queue, s.runner, s.captured);
    var later := PendingRuns(s.queue[1..], s.runner, s.captured);
    if s.queue[0].RunCount? {
      assert pending == [s.queue[0].count] + later;
      assert pending[0] == s.queue[0].count;
      assert forall i :: 0 <= i < |later| ==> later[i] == pending[i + 1];
    } else {
      assert pending == later;
    }
  }

  lemma DeliverKeepsFailures(s: State)
    requires FailureInv(s) && Enabled(s, Deliver)
    ensures FailureInv(Delivered(s))
  {
    FirstAnnounced(s.queue, s.runner, s.captured);
    assert !Owes(s.gui, EmitFailures) && !Owes(s.gui, EmitCleared);
    hide PendingFailures, Announced, Owes, Continues;
    var later := PendingFailures(s.queue[1..], s.runner, s.captured);
    if s.queue[0].FailureCount? {
      NextContinues(s.queue[0].failure, s.queue[0].count, later, s.failures, s.shownFailures);
    } else {
      assert PendingFailures(s.queue, s.runner, s.captured) == later;
    }
  }

  lemma FirstAnnounced(queue: seq<QtEvent>, runner: RunnerState, captured: nat)
    requires queue != []
    ensures PendingFailures(queue, runner, captured) ==
            (if queue[0].FailureCount? then [(queue[0].failure, queue[0].count)] else []) + PendingFailures(queue[1..], runner, captured)
  {
    Concat3(if queue[0].FailureCount? then [(queue[0].failure, queue[0].count)] else [], Announced(queue[1..]),
            PendingFailures([], runner, captured));
    assert Announced([]) + PendingFailures([], runner, captured) == PendingFailures([], runner, captured);
  }

  /** The first pending failure is the next one to show. */
  lemma NextContinues(failure: nat, count: nat, later: seq<(nat, nat)>, failures: seq<nat>, shown: nat)
    requires Continues([(failure, count)] + later, failures, shown)
    ensures count == shown + 1 && count <= |failures| && failures[..count] == failures[..shown] + [failure]
    ensures Continues(later, failures, count)
  {
    var pending := [(failure, count)] + later;
    assert pending[0] == (failure, count);
    assert forall i :: 0 <= i < |later| ==> later[i] == pending[i + 1];
  }

  // ---------- steps of the GUI thread ----------

  /** What an operation leaves alone. */
  lemma OpFrame(s: State)
    requires s.gui.Then?
    ensures GuiNext(s).gui == s.gui.next && GuiNext(s).captured == s.captured
    ensures GuiNext(s).queue == s.queue
  {
    match s.gui.op
    case Lock =>
    case Unlock =>
    case ResetCounters(_) =>
    case EmitCleared =>
    case EmitTotal =>
    case EmitRun =>
    case EmitFailures =>
    case NewResult =>
    case EmitStarted =>
    case StartThread =>
    case RaiseStop =>
  }

  /** Its effect on the lock. */
  lemma OpLocks(s: State)
    requires s.gui.Then?
    ensures s.gui.op == Lock ==> GuiNext(s).holder == HeldBy(Gui)
    ensures s.gui.op == Unlock ==> GuiNext(s).holder == Nobody
    ensures s.gui.op != Lock && s.gui.op != Unlock ==> GuiNext(s).holder == s.holder
  {
  }

  /** Its effect on the thread and the buttons. */
  lemma OpStarts(s: State)
    requires s.gui.Then?
    ensures s.gui.op == StartThread ==> GuiNext(s).runner == Between && GuiNext(s).running
    ensures s.gui.op != StartThread ==> GuiNext(s).runner == s.runner && GuiNext(s).running == s.running
    ensures GuiNext(s).enabled == (s.gui.op != EmitStarted && s.enabled)
  {
  }

  /** Its effect on the number of run tests and its display. */
  lemma OpCounts(s: State)
    requires s.gui.Then?
    ensures GuiNext(s).run == if s.gui.op.ResetCounters? then 0 else s.run
    ensures s.gui.op == EmitRun ==> GuiNext(s).shownRun == s.run && GuiNext(s).shownRuns == s.shownRuns + [s.run]
    ensures s.gui.op != EmitRun ==> GuiNext(s).shownRun == s.shownRun && GuiNext(s).shownRuns == s.shownRuns
  {
    match s.gui.op
    case Lock =>
    case Unlock =>
    case ResetCounters(_) =>
    case EmitCleared =>
    case EmitTotal =>
    case EmitRun =>
    case EmitFailures =>
    case NewResult =>
    case EmitStarted =>
    case StartThread =>
    case RaiseStop =>
  }

  /** Its effect on the failures. */
  lemma OpFailures(s: State)
    requires s.gui.Then?
    ensures s.gui.op.ResetCounters? ==> GuiNext(s).failures == [] && GuiNext(s).failureCount == 0
    ensures !s.gui.op.ResetCounters? ==> GuiNext(s).failures == s.failures && GuiNext(s).failureCount == s.failureCount
  {
  }

  /** Its effect on the displayed failures. */
  lemma OpShows(s: State)
    requires s.gui.Then?
    ensures GuiNext(s).shownFailures == if s.gui.op == EmitFailures then s.failureCount else s.shownFailures
    ensures GuiNext(s).shownList == if s.gui.op == EmitCleared then [] else s.shownList
  {
  }

  /** A branch changes nothing but the program. */
  lemma BranchEffect(s: State)
    requires s.gui.IfRunning? || s.gui.IfResult?
    ensures GuiNext(s) == s.(gui := s.gui.yes) || GuiNext(s) == s.(gui := s.gui.no)
    ensures s.gui.IfRunning? && s.running ==> GuiNext(s) == s.(gui := s.gui.yes)
  {
  }

  lemma GuiKeepsLock(s: State)
    requires LockInv(s) && Enabled(s, GuiStep)
    ensures LockInv(GuiNext(s))
  {
    if s.gui.Then? {
      OpFrame(s);
      OpLocks(s);
      OpStarts(s);
      hide GuiNext, OpNext, Followed;
    } else {
      BranchEffect(s);
      hide GuiNext, OpNext, OwesNothing;
    }
  }

  lemma GuiKeepsThread(s: State)
    requires LockInv(s) && ThreadInv(s) && Enabled(s, GuiStep)
    ensures ThreadInv(GuiNext(s))
  {
    if s.gui.Then? {
      OpFrame(s);
      OpLocks(s);
      OpStarts(s);
      CommandingCovers(s.gui.next);
      FollowedHere(s.gui, s.holder == HeldBy(Gui));
      hide GuiNext, OpNext, Shaped, LockInv, Owes;
    } else {
      BranchEffect(s);
      hide GuiNext, OpNext, Followed, Owes;
    }
  }

  lemma GuiKeepsFinish(s: State)
    requires LockInv(s) && ThreadInv(s) && FinishInv(s) && Enabled(s, GuiStep)
    ensures FinishInv(GuiNext(s))
  {
    if s.gui.Then? {
      OpFrame(s);
      OpLocks(s);
      OpStarts(s);
      FollowedHere(s.gui, s.holder == HeldBy(Gui));
      hide GuiNext, OpNext, Shaped, LockInv, Owes;
    } else {
      BranchEffect(s);
      hide GuiNext, OpNext, Followed, Owes, LockInv;
    }
  }

  lemma GuiKeepsCounts(s: State)
    requires LockInv(s) && ThreadInv(s) && CountInv(s) && Enabled(s, GuiStep)
    ensures CountInv(GuiNext(s))
  {
    var held := s.holder == HeldBy(Gui);
    if s.gui.Then? {
      if Owes(s.gui, EmitRun) {
        OwedIsQuiet(s, EmitRun);
      }
      OpFrame(s);
      OpLocks(s);
      OpStarts(s);
      OpCounts(s);
      FollowedHere(s.gui, held);
      OwesStep(s.gui, EmitRun);
      CommandingCovers(s.gui.next);
      GaplessZero(s.shownRuns);
      StartedIsPendingToo(s.queue, s.captured);
      hide PendingRuns, Commanding, NeedsIdle, Shaped, Gapless, StartPending, Owes, LockInv, GuiNext, OpNext;
    } else {
      BranchEffect(s);
      BranchOwesNothing(s.gui, held);
      hide PendingRuns, Commanding, NeedsIdle, Shaped, Gapless, StartPending, Owes, Counts, GuiNext, OpNext, LockInv;
    }
  }

  /** What is owed follows the program. */
  lemma OwesStep(prog: Program, op: Op)
    requires prog.Then?
    ensures Owes(prog, op) <==> prog.op == op || (!prog.op.ResetCounters? && Owes(prog.next, op))
  {
  }

  lemma BranchOwesNothing(prog: Program, held: bool)
    requires !prog.Then? && Shaped(prog, held)
    ensures OwesNothing(prog)
    ensures prog.IfRunning? || prog.IfResult? ==> OwesNothing(prog.yes) && OwesNothing(prog.no)
  {
  }

  /** While the display has to catch up, no event is on its way. */
  lemma OwedIsQuiet(s: State, op: Op)
    requires ThreadInv(s) && Owes(s.gui, op) && (op == EmitCleared || op == EmitRun || op == EmitFailures)
    ensures PendingRuns(s.queue, s.runner, s.captured) == []
    ensures PendingFailures(s.queue, s.runner, s.captured) == []
  {
    CommandingCovers(s.gui);
    hide Owes, Commanding, NeedsIdle;
  }

  lemma FollowedHere(prog: Program, held: bool)
    requires prog.Then? && Shaped(prog, held)
    ensures Followed(prog.op, prog.next) && (Touches(prog.op) ==> Commanding(prog) && NeedsIdle(prog))
  {
  }

  lemma StartedIsPendingToo(queue: seq<QtEvent>, captured: nat)
    ensures PendingRuns(queue, Idle, captured) == PendingRuns(queue, Between, captured)
    ensures PendingFailures(queue, Idle, captured) == PendingFailures(queue, Between, captured)
  {
  }

  lemma GaplessZero(shown: seq<nat>)
    requires Gapless(shown)
    ensures Gapless(shown + [0])
  {
  }

  lemma GuiKeepsFailures(s: State)
    requires LockInv(s) && ThreadInv(s) && FailureInv(s) && Enabled(s, GuiStep)
    ensures FailureInv(GuiNext(s))
  {
    var held := s.holder == HeldBy(Gui);
    if s.gui.Then? {
      if Owes(s.gui, EmitFailures) {
        OwedIsQuiet(s, EmitFailures);
      }
      OpFrame(s);
      OpLocks(s);
      OpStarts(s);
      OpFailures(s);
      OpShows(s);
      FollowedHere(s.gui, held);
      OwesStep(s.gui, EmitFailures);
      OwesStep(s.gui, EmitCleared);
      CommandingCovers(s.gui.next);
      StartedIsPendingToo(s.queue, s.captured);
      hide PendingFailures, Commanding, NeedsIdle, Shaped, StartPending, Owes, LockInv, GuiNext, OpNext;
    } else {
      BranchEffect(s);
      BranchOwesNothing(s.gui, held);
      hide PendingFailures, Commanding, NeedsIdle, Shaped, Continues, StartPending, Owes, GuiNext, OpNext, LockInv;
    }
  }

  // ---------- every run of the two threads ----------

  predicate Gated(a: Action) { !a.UngatedReset? }

  /** Every step of either thread keeps the invariant, as long as the dialog's buttons gate its requests. */
  lemma StepKeeps(s: State, a: Action)
    requires Inv(s) && Enabled(s, a) && Gated(a)
    ensures Inv(Next(s, a))
  {
    hide LockInv, ThreadInv, FinishInv, CountInv, FailureInv;
    match a
    case GuiStep =>
      GuiKeepsLock(s);
      GuiKeepsThread(s);
      GuiKeepsFinish(s);
      GuiKeepsCounts(s);
      GuiKeepsFailures(s);
    case RunnerStep =>
      RunnerKeepsOrder(s);
      RunnerKeepsCounts(s);
      RunnerKeepsFailures(s);
    case Deliver =>
      DeliverKeepsOrder(s);
      DeliverKeepsCounts(s);
      DeliverKeepsFailures(s);
    case EndTest => CallbacksKeep(s, a);
    case AddFailure(_) => CallbacksKeep(s, a);
    case Finish => CallbacksKeep(s, a);
    case RequestRun(_) => RequestsKeep(s, a);
    case RequestReset(_) => RequestsKeep(s, a);
    case RequestStop => RequestsKeep(s, a);
  }

  lemma {:induction false} RunsKeep(s: State, actions: seq<Action>, last: State)
    requires Inv(s) && Happens(s, actions, last) && forall a :: a in actions ==> Gated(a)
    ensures Inv(last)
    decreases actions
  {
    if actions != [] {
      hide Inv, Enabled, Next;
      assert actions[0] in actions;
      StepKeeps(s, actions[0]);
      RunsKeep(Next(s, actions[0]), actions[1..], last);
    }
  }

  /** The list ends with all numbers from zero up to its last one. */
  predicate EndsCountingUp(shown: seq<nat>) {
    shown != [] &&
    var start := |shown| - 1 - shown[|shown| - 1];
    start >= 0 && forall i :: start <= i < |shown| ==> shown[i] == i - start
  }

  lemma {:induction false} GaplessCountsUp(shown: seq<nat>)
    requires Gapless(shown)
    ensures EndsCountingUp(shown)
  {
    if shown[|shown| - 1] > 0 {
      GaplessCountsUp(shown[..|shown| - 1]);
    }
  }

  /** Displayed, queued and about to be posted: together these are all counted tests. */
  predicate RunsAccounted(s: State) { Counts(PendingRuns(s.queue, s.runner, s.captured), s.shownRun, s.run) }

  /** And these are all recorded failures, in their order. */
  predicate FailuresAccounted(s: State) {
    Continues(PendingFailures(s.queue, s.runner, s.captured), s.failures, s.shownFailures)
  }

  predicate ListAccounted(s: State) {
    s.shownFailures <= |s.failures| && s.shownList == s.failures[..s.shownFailures]
  }

  /** The dialog shows what the model counts. */
  predicate Agrees(s: State) {
    s.shownRun == s.run && s.shownFailures == s.failureCount && s.shownList == s.failures
  }

  lemma QuietAgrees(s: State)
    requires Quiet(s) && RunsAccounted(s) && FailuresAccounted(s) && ListAccounted(s) && s.failureCount == |s.failures|
    ensures Agrees(s)
  {
    assert PendingRuns(s.queue, s.runner, s.captured) == [] && PendingFailures(s.queue, s.runner, s.captured) == [];
    assert s.failures[..|s.failures|] == s.failures;
  }

  /**
   * In every interleaving: no thread asks for the lock while it holds it, and somebody can always move on
   * while it is held; the displayed counts go up by one or start again at zero, so the last of them are 0, 1, 2
   * and so on without gap or repetition; what is displayed, queued and about to be posted accounts for every
   * counted test and every recorded failure, except between a reset of the counters and the signal that displays
   * it, which never happens while the tests run or an event is on its way; when the finished event is next,
   * everything has been displayed; and the dialog at rest shows what the model counts.
   */
  lemma EveryInterleaving(actions: seq<Action>, s: State)
    requires Happens(INITIAL, actions, s) && forall a :: a in actions ==> Gated(a)
    ensures !(s.gui.Then? && s.gui.op == Lock && s.holder == HeldBy(Gui))
    ensures !(WantsTheLock(s.runner) && s.holder == HeldBy(Runner))
    ensures s.holder == HeldBy(Gui) ==> Enabled(s, GuiStep)
    ensures s.holder == HeldBy(Runner) ==> Enabled(s, RunnerStep)
    ensures Gapless(s.shownRuns) && s.shownRuns[|s.shownRuns| - 1] == s.shownRun && EndsCountingUp(s.shownRuns)
    ensures s.failureCount == |s.failures|
    ensures !Owes(s.gui, EmitRun) ==> RunsAccounted(s)
    ensures !Owes(s.gui, EmitFailures) ==> FailuresAccounted(s)
    ensures !Owes(s.gui, EmitFailures) && !Owes(s.gui, EmitCleared) ==> ListAccounted(s)
    ensures s.gui == Return || !Quiet(s) ==> RunsAccounted(s) && FailuresAccounted(s) && ListAccounted(s)
    ensures s.queue != [] && s.queue[0] == Finished ==>
              s.queue == [Finished] && s.shownRun == s.run && s.shownList == s.failures
    ensures s.gui == Return && Quiet(s) ==> Agrees(s)
    ensures !s.enabled && !StartPending(s.gui) && (s.runner == Idle || s.runner == Exiting) ==> Finished in s.queue
  {
    InitialHolds();
    RunsKeep(INITIAL, actions, s);
    GaplessCountsUp(s.shownRuns);
    CommandingCovers(s.gui);
    hide Happens, Commanding, NeedsIdle, Gapless, EndsCountingUp, StartPending, PendingRuns, PendingFailures;
    FinishedShowsAll(s);
    if s.gui == Return && Quiet(s) {
      QuietAgrees(s);
    }
  }

  /** With the finished event at its head, the queue holds nothing else, and nothing is about to be posted. */
  lemma FinishedShowsAll(s: State)
    requires FinishInv(s)
    ensures s.queue != [] && s.queue[0] == Finished ==>
              s.queue == [Finished] && (RunsAccounted(s) ==> s.shownRun == s.run) &&
              (FailuresAccounted(s) && ListAccounted(s) ==> s.shownList == s.failures)
  {
    if s.queue != [] && s.queue[0] == Finished {
      assert s.queue[0].Finished? && s.queue[1..] == [];
      assert RunCounts(s.queue[1..]) == [] && Announced(s.queue[1..]) == [];
      assert PendingRuns(s.queue, s.runner, s.captured) == [] && PendingFailures(s.queue, s.runner, s.captured) == [];
      assert s.failures[..|s.failures|] == s.failures;
    }
  }
}
