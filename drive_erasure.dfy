/** The drive-erasure screen as an object: the component's state fields, the
    timers of its progress effect, and one method per handler. Each method
    is proved against the matching step function of `Workflow`, and keeps the
    invariant `Workflow.Inv`. */
module DriveErasureScreen {
  import opened Confirmation
  import opened Phases
  import opened Workflow
  import opened WorkflowProperties

  class DriveErasure {
    var eraseState: EraseState
    var eraseMethod: EraseMethod
    var progress: real
    var currentAction: string
    var confirmText: string
    var confirmChecked: bool
    var showConfirmDialog: bool
    /** The interval and the timeout scheduled by the progress effect. */
    var timer: Timer

    function Snapshot(): (s: Screen)
      reads this
    {
      Screen(eraseState, eraseMethod, progress, currentAction,
             confirmText, confirmChecked, showConfirmDialog, timer)
    }

    ghost predicate Valid()
      reads this
    {
      Inv(Snapshot())
    }

    /** The `useState` initial values: idle, quick, nothing typed. */
    constructor ()
      ensures Valid()
      ensures Snapshot() == Initial()
    {
      eraseState := Idle;
      eraseMethod := Quick;
      progress := 0.0;
      currentAction := "";
      confirmText := "";
      confirmChecked := false;
      showConfirmDialog := false;
      timer := NoTimer;
    }

    /** "Wipe" on the idle screen only opens the dialog. */
    method HandleWipeClick()
      requires Valid() && eraseState == Idle
      modifies this
      ensures Valid()
      ensures Snapshot() == old(Snapshot()).(showConfirmDialog := true)
      ensures Snapshot() == Next(old(Snapshot()), WipeClicked)
    {
      showConfirmDialog := true;
    }

    /** "Cancel" only closes the dialog. */
    method CancelConfirmDialog()
      requires Valid() && eraseState == Idle && showConfirmDialog
      modifies this
      ensures Valid()
      ensures Snapshot() == old(Snapshot()).(showConfirmDialog := false)
      ensures Snapshot() == Next(old(Snapshot()), DialogCancelled)
    {
      showConfirmDialog := false;
    }

    /** The confirmation input only replaces the typed text. */
    method SetConfirmText(text: string)
      requires Valid() && eraseState == Idle && showConfirmDialog
      modifies this
      ensures Valid()
      ensures Snapshot() == old(Snapshot()).(confirmText := text)
      ensures Snapshot() == Next(old(Snapshot()), TextTyped(text))
    {
      confirmText := text;
    }

    /** The acknowledgement box only replaces the checked flag. */
    method SetConfirmChecked(checked: bool)
      requires Valid() && eraseState == Idle && showConfirmDialog
      modifies this
      ensures Valid()
      ensures Snapshot() == old(Snapshot()).(confirmChecked := checked)
      ensures Snapshot() == Next(old(Snapshot()), BoxChecked(checked))
    {
      confirmChecked := checked;
    }

    /** The quick and secure checkboxes only set the method. */
    method SetEraseMethod(m: EraseMethod)
      requires Valid() && eraseState == Idle
      modifies this
      ensures Valid()
      ensures Snapshot() == old(Snapshot()).(eraseMethod := m)
      ensures Snapshot() == Next(old(Snapshot()), MethodSelected(m))
    {
      eraseMethod := m;
    }

    /** "Wipe Drive": a rejected confirmation returns early and changes
        nothing; an accepted one closes the dialog, enters `Erasing` at 0
        with the preparing message, and the progress effect starts its
        interval. The method and the confirmation inputs stay as they were. */
    method HandleConfirmWipe()
      requires Valid() && eraseState == Idle && showConfirmDialog
      modifies this
      ensures Valid()
      ensures Snapshot() == Next(old(Snapshot()), WipeConfirmed)
      ensures !IsValidConfirmation(old(confirmText), old(confirmChecked)) ==> Snapshot() == old(Snapshot())
      ensures IsValidConfirmation(old(confirmText), old(confirmChecked)) ==>
        && eraseState == Erasing && progress == 0.0 && currentAction == PreparingAction
        && !showConfirmDialog && timer == Interval(0.0, 0)
        && eraseMethod == old(eraseMethod)
        && confirmText == old(confirmText) && confirmChecked == old(confirmChecked)
    {
      ghost var before := Snapshot();
      NextPreservesInv(before, WipeConfirmed);
      var isValidConfirmation := IsValidConfirmation(confirmText, confirmChecked);
      if !isValidConfirmation {
        assert ConfirmWipe(before) == before;
        return;
      }
      showConfirmDialog := false;
      eraseState := Erasing;
      progress := 0.0;
      currentAction := PreparingAction;
      StartProgressEffect();
      assert Snapshot() == ConfirmWipe(before);
    }

    /** The effect that runs when the state becomes `Erasing`: both closure
        variables start at 0 and the interval is set. */
    method StartProgressEffect()
      requires eraseState == Erasing && timer == NoTimer
      modifies this
      ensures Snapshot() == old(Snapshot()).(timer := Interval(0.0, 0))
    {
      var actionIndex := 0;
      var currentProgress := 0.0;
      timer := Interval(currentProgress, actionIndex);
    }

    /** One firing of the interval, `increment` standing for the random
        amount in [2, 10). */
    method Tick(increment: real)
      requires Valid() && timer.Interval? && ValidIncrement(increment)
      modifies this
      ensures Valid()
      ensures Snapshot() == Workflow.Tick(old(Snapshot()), increment)
      ensures old(progress) < progress <= 100.0
      ensures timer == CompletionPending <==> old(progress) + increment >= 100.0
    {
      ghost var before := Snapshot();
      TickPreservesInv(before, increment);
      TickAdvances(before, increment);
      var currentProgress := timer.currentProgress + increment;
      if currentProgress >= 100.0 {
        progress := 100.0;
        currentAction := CompletedAction;
        timer := CompletionPending;
        return;
      }
      progress := currentProgress;
      var actionIndex := timer.actionIndex;
      var newActionIndex := PhaseIndex(currentProgress);
      if newActionIndex != actionIndex && newActionIndex < |Actions| {
        actionIndex := newActionIndex;
        currentAction := Actions[actionIndex];
      }
      timer := Interval(currentProgress, actionIndex);
    }

    /** The one-second timeout after the final tick: the screen becomes
        `Completed`, with progress already at 100. */
    method Finish()
      requires Valid() && timer == CompletionPending
      modifies this
      ensures Valid()
      ensures Snapshot() == Workflow.Finish(old(Snapshot()))
      ensures eraseState == Completed && progress == 100.0 && old(eraseState) == Erasing
    {
      eraseState := Completed;
      timer := NoTimer;
    }

    /** "Erase Another Drive": back to idle with progress, action and both
        confirmation inputs cleared; the method is kept. */
    method ResetToIdle()
      requires Valid() && eraseState == Completed
      modifies this
      ensures Valid()
      ensures Snapshot() == Next(old(Snapshot()), ResetClicked)
      ensures eraseState == Idle && progress == 0.0 && currentAction == ""
      ensures confirmText == "" && !confirmChecked
      ensures eraseMethod == old(eraseMethod) && showConfirmDialog == old(showConfirmDialog)
    {
      eraseState := Idle;
      progress := 0.0;
      currentAction := "";
      confirmText := "";
      confirmChecked := false;
    }

    /** The interval firing, from the moment the effect set it, once per
        increment until it clears itself: it never fires more than 50 times,
        and 50 increments always bring it to the completion timeout. */
    method RunInterval(increments: seq<real>) returns (fired: nat)
      requires Valid() && timer == Interval(0.0, 0) && AllValid(increments)
      modifies this
      ensures Valid()
      ensures Snapshot() == RunTicks(old(Snapshot()), increments)
      ensures fired <= |increments| && fired <= 50
      ensures timer.Interval? ==> fired == |increments|
      ensures |increments| >= 50 ==> timer == CompletionPending
      ensures eraseState == Erasing && eraseMethod == old(eraseMethod)
      ensures confirmText == old(confirmText) && confirmChecked == old(confirmChecked)
      ensures showConfirmDialog == old(showConfirmDialog)
    {
      fired := 0;
      while fired < |increments| && timer.Interval?
        invariant Valid() && eraseState == Erasing && fired <= |increments| && fired <= 50
        invariant RunTicks(Snapshot(), increments[fired..]) == RunTicks(old(Snapshot()), increments)
        invariant timer.Interval? ==> 2.0 * fired as real <= progress
        invariant eraseMethod == old(eraseMethod) && showConfirmDialog == old(showConfirmDialog)
        invariant confirmText == old(confirmText) && confirmChecked == old(confirmChecked)
        decreases |increments| - fired
      {
        assert increments[fired..][1..] == increments[fired + 1..];
        Tick(increments[fired]);
        fired := fired + 1;
      }
    }
  }
}
