/** What stopRunningTest of the graphical runner comes to, whatever the runner thread does meanwhile. */
module RunnerStops {
  import opened RunnerModel
  import opened RunnerResets

  // ---------- the stop flag over any run ----------

  /** What a step does to the stop flag: only two operations of the GUI thread touch it. */
  datatype Mark = Raised | Cleared | Untouched

  function MarkOf(s: State, a: Action): Mark {
    if a == GuiStep && s.gui.Then? && s.gui.op == RaiseStop then Raised
    else if a == GuiStep && s.gui.Then? && s.gui.op == NewResult then Cleared
    else Untouched
  }

  /** The last time the actions, one after the other, touch the flag. */
  function LastMark(s: State, actions: seq<Action>): Mark
    decreases actions
  {
    if actions == [] || !Enabled(s, actions[0]) then Untouched else
    var later := LastMark(Next(s, actions[0]), actions[1..]);
    if later != Untouched then later else MarkOf(s, actions[0])
  }

  lemma StepMarks(s: State, a: Action)
    requires Enabled(s, a)
    ensures Next(s, a).stopped == match MarkOf(s, a) case Raised => true case Cleared => false case Untouched => s.stopped
  {
    match a
    case GuiStep =>
      if s.gui.Then? {
        OpMarks(s.(gui := s.gui.next), s.gui.op);
      }
    case RunnerStep => RunnerKeepsFlags(s);
    case Deliver =>
    case _ =>
  }

  lemma OpMarks(s: State, op: Op)
    ensures OpNext(s, op).stopped == if op == RaiseStop then true else if op == NewResult then false else s.stopped
  {
    match op
    case Lock =>
    case Unlock =>
    case ResetCounters(_) =>
    case EmitCleared =>
    case EmitTotal =>
    case EmitRun =>
    case EmitFailures =>
    case NewResult =>
    case EmitStarted =>
    case StartThread =>
    case RaiseStop =>
  }

  lemma RunnerKeepsFlags(s: State)
    requires s.runner != Idle && s.runner != Between
    ensures RunnerNext(s).stopped == s.stopped && RunnerNext(s).result == s.result && RunnerNext(s).gui == s.gui
  {
    match s.runner
    case Ending(place) => match place { case WantsLock => case Inside => case Leaving => case Posting => }
    case Failing(_, place) => match place { case WantsLock => case Inside => case Leaving => case Posting => }
    case Finishing =>
    case Exiting =>
  }

  /** Over any run the flag is what was last done to it: once raised it stays raised until the next new result. */
  lemma {:induction false} FlagIsLastMark(s: State, actions: seq<Action>, last: State)
    requires Happens(s, actions, last)
    ensures last.stopped == match LastMark(s, actions) case Raised => true case Cleared => false case Untouched => s.stopped
    decreases actions
  {
    if actions != [] {
      StepMarks(s, actions[0]);
      hide Next, Enabled, MarkOf;
      FlagIsLastMark(Next(s, actions[0]), actions[1..], last);
    }
  }

  // ---------- one call of stopRunningTest ----------

  /** The GUI thread goes on in the function it is in, and the runner does whatever it does. */
  predicate WithinCall(actions: seq<Action>) {
    forall a :: a in actions ==> a.GuiStep? || a.RunnerStep? || a.EndTest? || a.AddFailure? || a.Finish?
  }

  /** What the GUI thread finds when it looks whether the thread is running; false if it never does. */
  function FoundRunning(s: State, actions: seq<Action>): bool
    decreases actions
  {
    actions != [] && Enabled(s, actions[0]) &&
    if actions[0] == GuiStep && s.gui.IfRunning? then s.running else FoundRunning(Next(s, actions[0]), actions[1..])
  }

  const RAISES := Then(Unlock, Then(Lock, Then(RaiseStop, Then(Unlock, Return))))

  const LOOKS := IfRunning(RAISES, Then(Unlock, Return))

  const ASKS := IfResult(Then(Unlock, Then(Lock, LOOKS)), Then(Unlock, Return))

  /** The rest of stopRunningTest, before and after the thread was found running, and when nothing is left to do. */
  predicate Looking(gui: Program) { gui == LOOKS || gui == Then(Lock, LOOKS) || gui == Then(Unlock, Then(Lock, LOOKS)) }

  predicate Asking(gui: Program) { gui == ASKS || gui == Then(Lock, ASKS) }

  predicate Raising(gui: Program) {
    gui == RAISES || gui == RAISES.next || gui == RAISES.next.next
  }

  predicate Returning(gui: Program) { gui == Then(Unlock, Return) || gui == Return }

  /** Whether the rest of the call ends with the flag set. */
  ghost predicate Ends(s: State, actions: seq<Action>, stopped: bool) {
    if Asking(s.gui) then stopped == (s.stopped || (s.result && FoundRunning(s, actions)))
    else if Looking(s.gui) then stopped == (s.stopped || FoundRunning(s, actions))
    else if Raising(s.gui) then stopped
    else stopped == s.stopped
  }

  predicate WithinStop(gui: Program) { Asking(gui) || Looking(gui) || Raising(gui) || Returning(gui) }

  lemma OtherStep(s: State, a: Action)
    requires Enabled(s, a) && (a.RunnerStep? || a.EndTest? || a.AddFailure? || a.Finish?)
    ensures Next(s, a).gui == s.gui && Next(s, a).stopped == s.stopped && Next(s, a).result == s.result
  {
    if a.RunnerStep? {
      RunnerKeepsFlags(s);
    }
  }

  lemma AskingStep(s: State)
    requires Enabled(s, GuiStep) && Asking(s.gui)
    ensures var t := Next(s, GuiStep);
            t.stopped == s.stopped && t.result == s.result &&
            (if s.gui == ASKS then (if s.result then Looking(t.gui) else Returning(t.gui)) else t.gui == ASKS)
  {
  }

  lemma LookingStep(s: State)
    requires Enabled(s, GuiStep) && Looking(s.gui)
    ensures var t := Next(s, GuiStep);
            t.stopped == s.stopped && t.result == s.result &&
            (if s.gui == LOOKS then (if s.running then Raising(t.gui) else Returning(t.gui)) else Looking(t.gui))
  {
  }

  lemma RaisingStep(s: State)
    requires Enabled(s, GuiStep) && Raising(s.gui)
    ensures var t := Next(s, GuiStep);
            t.result == s.result && (if s.gui == RAISES.next.next then Returning(t.gui) && t.stopped else Raising(t.gui))
  {
  }

  lemma ReturningStep(s: State)
    requires Enabled(s, GuiStep) && Returning(s.gui)
    ensures var t := Next(s, GuiStep);
            t.stopped == s.stopped && t.result == s.result && Returning(t.gui)
  {
  }

  /** The parts of the call are told apart by their programs. */
  lemma Apart(gui: Program)
    ensures Asking(gui) ==> !Looking(gui) && !Raising(gui) && !Returning(gui)
    ensures Looking(gui) ==> !Raising(gui) && !Returning(gui)
    ensures Raising(gui) ==> !Returning(gui)
    ensures gui.IfRunning? && WithinStop(gui) ==> gui == LOOKS
    ensures gui == LOOKS ==> gui.IfRunning? && Looking(gui)
  {
  }

  lemma {:induction false} CallEnds(s: State, actions: seq<Action>, last: State)
    requires Happens(s, actions, last) && WithinCall(actions) && WithinStop(s.gui) && last.gui == Return
    ensures Ends(s, actions, last.stopped) && last.result == s.result
    decreases actions
  {
    Apart(s.gui);
    if actions != [] {
      var a, t, rest := actions[0], Next(s, actions[0]), actions[1..];
      assert a in actions;
      assert FoundRunning(s, actions) == if a == GuiStep && s.gui.IfRunning? then s.running else FoundRunning(t, rest);
      Apart(t.gui);
      if a != GuiStep {
        OtherStep(s, a);
      } else if Asking(s.gui) {
        AskingStep(s);
      } else if Looking(s.gui) {
        LookingStep(s);
      } else if Raising(s.gui) {
        RaisingStep(s);
      } else {
        ReturningStep(s);
      }
      hide Next, Enabled, FoundRunning, Asking, Looking, Raising, Returning;
      CallEnds(t, rest, last);
    }
  }

  /**
   * A call of stopRunningTest that has returned, whatever the runner thread did meanwhile: the flag of the result is
   * set if there is a result and the thread was found running, and otherwise it is what it was.
   */
  lemma StopStops(s: State, actions: seq<Action>, last: State)
    requires s.gui == Return && Happens(s, [RequestStop] + actions, last) && WithinCall(actions) && last.gui == Return
    ensures last.stopped <==> s.stopped || (s.result && FoundRunning(Next(s, RequestStop), actions))
    ensures last.result == s.result
  {
    assert ([RequestStop] + actions)[1..] == actions;
    var t := s.(gui := STOP_PROGRAM);
    assert Next(s, RequestStop) == t && t.gui == Then(Lock, ASKS);
    hide Next, Enabled, FoundRunning;
    Apart(t.gui);
    CallEnds(t, actions, last);
  }

  /** With the lock free the call can run through: three, six or nine steps, and nine of them set the flag. */
  lemma StopRuns(s: State)
    requires s.gui == Return && s.holder == Nobody
    ensures Happens(s, [RequestStop] + Repeat(GuiStep, if !s.result then 3 else if !s.running then 6 else 9),
                    if s.result && s.running then s.(stopped := true) else s)
  {
    var asked, looking, raising := s.(gui := STOP_PROGRAM), s.(gui := Then(Lock, LOOKS)), s.(gui := RAISES.next);
    var last := if s.result && s.running then s.(stopped := true) else s;
    Pressed(s);
    AskSteps(s);
    LookSteps(s);
    RaiseSteps(s);
    Nothing(last, GuiStep);
    hide Next, Enabled, Happens, ThreeSteps, Repeat;
    if !s.result {
      SegmentRuns(asked, s, 0, last);
      OneMore(s, RequestStop, Repeat(GuiStep, 3), last);
    } else if !s.running {
      SegmentRuns(looking, s, 0, last);
      SegmentRuns(asked, looking, 3, last);
      OneMore(s, RequestStop, Repeat(GuiStep, 6), last);
    } else {
      SegmentRuns(raising, last, 0, last);
      SegmentRuns(looking, raising, 3, last);
      SegmentRuns(asked, looking, 6, last);
      OneMore(s, RequestStop, Repeat(GuiStep, 9), last);
    }
  }

  lemma Pressed(s: State)
    requires s.gui == Return
    ensures Enabled(s, RequestStop) && Next(s, RequestStop) == s.(gui := STOP_PROGRAM) && s.(gui := Return) == s
  {
  }

  lemma SegmentRuns(s: State, t: State, n: nat, last: State)
    requires ThreeSteps(s, t) && Happens(t, Repeat(GuiStep, n), last)
    ensures Happens(s, Repeat(GuiStep, n + 3), last)
  {
    hide Next, Enabled, Happens;
    ThreeMore(s, GuiStep, n, last);
  }

  /** Three steps can be made, and lead there. */
  predicate ThreeSteps(s: State, last: State) {
    Enabled(s, GuiStep) && Enabled(Next(s, GuiStep), GuiStep) && Enabled(Next(Next(s, GuiStep), GuiStep), GuiStep) &&
    Next(Next(Next(s, GuiStep), GuiStep), GuiStep) == last
  }

  lemma AskSteps(s: State)
    requires s.holder == Nobody
    ensures ThreeSteps(s.(gui := STOP_PROGRAM), s.(gui := if s.result then Then(Lock, LOOKS) else Return))
  {
    var asking := s.(holder := HeldBy(Gui), gui := ASKS);
    assert Next(s.(gui := STOP_PROGRAM), GuiStep) == asking;
    assert s.result ==> Next(asking, GuiStep) == asking.(gui := Then(Unlock, Then(Lock, LOOKS)));
    assert !s.result ==> Next(asking, GuiStep) == asking.(gui := Then(Unlock, Return));
  }

  lemma LookSteps(s: State)
    requires s.holder == Nobody
    ensures ThreeSteps(s.(gui := Then(Lock, LOOKS)), s.(gui := if s.running then RAISES.next else Return))
  {
    var looking := s.(holder := HeldBy(Gui), gui := LOOKS);
    assert Next(s.(gui := Then(Lock, LOOKS)), GuiStep) == looking;
    assert s.running ==> Next(looking, GuiStep) == looking.(gui := RAISES);
    assert !s.running ==> Next(looking, GuiStep) == looking.(gui := Then(Unlock, Return));
  }

  lemma RaiseSteps(s: State)
    requires s.holder == Nobody
    ensures ThreeSteps(s.(gui := RAISES.next), s.(stopped := true, gui := Return))
  {
    var raising := s.(holder := HeldBy(Gui), gui := RAISES.next.next);
    assert Next(s.(gui := RAISES.next), GuiStep) == raising;
    assert Next(raising, GuiStep) == raising.(stopped := true, gui := Then(Unlock, Return));
  }
}
