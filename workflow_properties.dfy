/** What the erase workflow guarantees: over single steps, over runs of the
    interval, and over every sequence of events from the initial screen. */
module WorkflowProperties {
  import opened Confirmation
  import opened Phases
  import opened Workflow

  /** `events` can happen one after the other starting from `s`. */
  predicate ValidTrace(s: Screen, events: seq<Event>)
    decreases |events|
  {
    events == [] || (Enabled(s, events[0]) && ValidTrace(Next(s, events[0]), events[1..]))
  }

  /** The screen after `events`. */
  function Replay(s: Screen, events: seq<Event>): (t: Screen)
    requires ValidTrace(s, events)
    decreases |events|
  {
    if events == [] then s else Replay(Next(s, events[0]), events[1..])
  }

  lemma {:induction false} ReplayKeepsInv(s: Screen, events: seq<Event>)
    requires Inv(s) && ValidTrace(s, events)
    ensures Inv(Replay(s, events))
    decreases |events|
  {
    if events != [] {
      NextPreservesInv(s, events[0]);
      ReplayKeepsInv(Next(s, events[0]), events[1..]);
    }
  }

  /** Every screen reachable from the initial one satisfies the invariant:
      in particular the `Confirming` state is never entered, and the first
      label "Initializing secure erase..." is never displayed. */
  lemma ReachableInv(events: seq<Event>)
    requires ValidTrace(Initial(), events)
    ensures Inv(Replay(Initial(), events))
    ensures Replay(Initial(), events).eraseState != Confirming
    ensures Replay(Initial(), events).currentAction != Actions[0]
  {
    ReplayKeepsInv(Initial(), events);
    FirstLabelNeverShown(Replay(Initial(), events));
  }

  /** While the interval runs, "Preparing to erase drive..." stays until the
      index first leaves 0, so the first label is never the current action. */
  lemma FirstLabelNeverShown(s: Screen)
    requires Inv(s)
    ensures s.currentAction != Actions[0]
  {
    if s.timer.Interval? && s.timer.actionIndex != 0 {
      ActionsDistinct(s.timer.actionIndex, 0);
    }
  }

  /** "Wipe Drive": a rejected confirmation changes nothing; an accepted one
      closes the dialog, starts erasing from 0 with the preparing message, and
      keeps the method and both confirmation inputs. */
  lemma ConfirmWipeGate(s: Screen)
    requires Inv(s) && Enabled(s, WipeConfirmed)
    ensures var t := ConfirmWipe(s);
      && (!IsValidConfirmation(s.confirmText, s.confirmChecked) <==> t == s)
      && (IsValidConfirmation(s.confirmText, s.confirmChecked) <==> t.eraseState == Erasing)
      && (IsValidConfirmation(s.confirmText, s.confirmChecked) ==>
            && !t.showConfirmDialog && t.progress == 0.0 && t.currentAction == PreparingAction
            && t.eraseMethod == s.eraseMethod
            && t.confirmText == s.confirmText && t.confirmChecked == s.confirmChecked)
  {
  }

  /** One tick: progress strictly rises by at most the increment and never
      passes 100; the interval stops exactly when the running sum reaches
      100, and then progress is exactly 100 with the completion message;
      otherwise progress is the running sum. The tick touches nothing but
      progress, the current action and its own timer. */
  lemma TickAdvances(s: Screen, increment: real)
    requires Inv(s) && s.timer.Interval? && ValidIncrement(increment)
    ensures var t := Tick(s, increment);
      && s.progress < t.progress <= 100.0
      && t.progress - s.progress <= increment
      && (t.timer == CompletionPending <==> s.progress + increment >= 100.0)
      && (t.timer == CompletionPending ==> t.progress == 100.0 && t.currentAction == CompletedAction)
      && (t.timer != CompletionPending ==> t.timer.Interval? && t.progress == s.progress + increment)
      && t.eraseState == s.eraseState && t.eraseMethod == s.eraseMethod
      && t.confirmText == s.confirmText && t.confirmChecked == s.confirmChecked
      && t.showConfirmDialog == s.showConfirmDialog
  {
  }

  /** On a tick that does not finish, the label index lies in 0..6, never
      decreases, and the current action changes only when the index does,
      and then to the label at the new index. */
  lemma PhaseLabelFollowsIndex(s: Screen, increment: real)
    requires Inv(s) && s.timer.Interval? && ValidIncrement(increment)
    requires Tick(s, increment).timer.Interval?
    ensures var t := Tick(s, increment);
      && t.timer.actionIndex == PhaseIndex(t.progress)
      && 0 <= t.timer.actionIndex < |Actions|
      && s.timer.actionIndex <= t.timer.actionIndex
      && (t.currentAction != s.currentAction ==>
            t.timer.actionIndex != s.timer.actionIndex && t.currentAction == Actions[t.timer.actionIndex])
  {
    var p := s.timer.currentProgress + increment;
    PhaseIndexMonotone(s.timer.currentProgress, p);
  }

  /** The erase method never reaches the tick: the same labels and progress
      whichever method was chosen. */
  lemma TickIgnoresMethod(s: Screen, m: EraseMethod, increment: real)
    requires s.timer.Interval? && 0.0 <= s.timer.currentProgress && ValidIncrement(increment)
    ensures Tick(s.(eraseMethod := m), increment) == Tick(s, increment).(eraseMethod := m)
  {
  }

  /** `Completed` is entered only by the timeout, only from `Erasing`, and only
      once progress is exactly 100. */
  lemma CompletedOnlyAfterFullProgress(s: Screen, e: Event)
    requires Inv(s) && Enabled(s, e)
    requires s.eraseState != Completed && Next(s, e).eraseState == Completed
    ensures e == TimeoutFired
    ensures s.eraseState == Erasing && s.progress == 100.0
  {
  }

  /** While erasing, no event lowers progress or leaves for `Idle`. */
  lemma ProgressNeverDecreasesWhileErasing(s: Screen, e: Event)
    requires Inv(s) && Enabled(s, e) && s.eraseState == Erasing
    ensures Next(s, e).progress >= s.progress
    ensures Next(s, e).eraseState == Erasing || Next(s, e).eraseState == Completed
  {
  }

  /** Increments of at least 2 finish the interval once they can cover the
      remaining distance to 100. */
  lemma {:induction false} TicksFinish(s: Screen, increments: seq<real>)
    requires Inv(s) && s.timer.Interval? && AllValid(increments)
    requires 100.0 - s.progress <= 2.0 * |increments| as real
    ensures var t := RunTicks(s, increments);
      t.timer == CompletionPending && t.progress == 100.0 && t.currentAction == CompletedAction
    decreases |increments|
  {
    assert increments != [];
    var t := Tick(s, increments[0]);
    TickPreservesInv(s, increments[0]);
    if t.timer.Interval? {
      TicksFinish(t, increments[1..]);
    }
  }

  /** Increments below 10 cannot finish the interval while they sum to at
      most the remaining distance; progress rises by at least 2 per tick. */
  lemma {:induction false} TicksCannotFinishEarly(s: Screen, increments: seq<real>)
    requires Inv(s) && s.timer.Interval? && AllValid(increments)
    requires s.progress + 10.0 * |increments| as real <= 100.0
    ensures var t := RunTicks(s, increments);
      && t.timer.Interval?
      && s.progress + 2.0 * |increments| as real <= t.progress <= s.progress + 10.0 * |increments| as real
    decreases |increments|
  {
    if increments != [] {
      var t := Tick(s, increments[0]);
      TickPreservesInv(s, increments[0]);
      TicksCannotFinishEarly(t, increments[1..]);
    }
  }

  /** From an accepted confirmation, any 50 ticks finish the erase, and the
      timeout then completes it at 100 percent. */
  lemma FiftyTicksSuffice(s: Screen, increments: seq<real>)
    requires Inv(s) && Enabled(s, WipeConfirmed) && IsValidConfirmation(s.confirmText, s.confirmChecked)
    requires |increments| >= 50 && AllValid(increments)
    ensures RunTicks(ConfirmWipe(s), increments).timer == CompletionPending
    ensures Finish(RunTicks(ConfirmWipe(s), increments)).eraseState == Completed
    ensures Finish(RunTicks(ConfirmWipe(s), increments)).progress == 100.0
  {
    NextPreservesInv(s, WipeConfirmed);
    TicksFinish(ConfirmWipe(s), increments);
  }

  /** From an accepted confirmation, ten ticks never finish the erase: the
      interval fires at least eleven times. */
  lemma TenTicksNeverSuffice(s: Screen, increments: seq<real>)
    requires Inv(s) && Enabled(s, WipeConfirmed) && IsValidConfirmation(s.confirmText, s.confirmChecked)
    requires |increments| <= 10 && AllValid(increments)
    ensures RunTicks(ConfirmWipe(s), increments).timer.Interval?
    ensures RunTicks(ConfirmWipe(s), increments).eraseState == Erasing
  {
    NextPreservesInv(s, WipeConfirmed);
    TicksCannotFinishEarly(ConfirmWipe(s), increments);
    TicksKeepInv(ConfirmWipe(s), increments);
  }

  /** Ticking keeps the invariant. */
  lemma {:induction false} TicksKeepInv(s: Screen, increments: seq<real>)
    requires Inv(s) && AllValid(increments)
    ensures Inv(RunTicks(s, increments))
    decreases |increments|
  {
    if increments != [] && s.timer.Interval? {
      TickPreservesInv(s, increments[0]);
      TicksKeepInv(Tick(s, increments[0]), increments[1..]);
    }
  }
}
