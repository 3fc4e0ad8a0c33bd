/** The state of the drive-erasure screen as one value, and one pure function
    per event that changes it. These functions are the specification the
    methods of `DriveErasureScreen.DriveErasure` are proved against. */
module Workflow {
  import opened Confirmation
  import opened Phases

  /** The component's `EraseState`. `Confirming` exists in the type but no
      handler ever assigns it; the open dialog is the separate flag
      `showConfirmDialog`. */
  datatype EraseState = Idle | Confirming | Erasing | Completed

  datatype EraseMethod = Quick | Secure

  /** The timers owned by the progress effect: the live interval together with
      the two variables its closure updates, or the one-second timeout that
      moves the screen to `Completed` after the interval stopped. */
  datatype Timer =
    | NoTimer
    | Interval(currentProgress: real, actionIndex: int)
    | CompletionPending

  /** The seven state fields of the component plus its timers. */
  datatype Screen = Screen(
    eraseState: EraseState,
    eraseMethod: EraseMethod,
    progress: real,
    currentAction: string,
    confirmText: string,
    confirmChecked: bool,
    showConfirmDialog: bool,
    timer: Timer)

  /** What is shown while the interval runs at a given label index: nothing has
      replaced "Preparing..." while the index is still 0. */
  function ShownAction(actionIndex: int): (a: string)
    requires 0 <= actionIndex < |Actions|
  {
    if actionIndex == 0 then PreparingAction else Actions[actionIndex]
  }

  /** What holds of every state the component can reach. */
  ghost predicate Inv(s: Screen) {
    && s.eraseState != Confirming
    && (s.eraseState == Idle ==> s.timer == NoTimer && s.progress == 0.0 && s.currentAction == "")
    && (s.showConfirmDialog ==> s.eraseState == Idle)
    && (s.eraseState == Erasing ==> s.timer != NoTimer)
    && (s.eraseState == Completed ==>
          s.timer == NoTimer && s.progress == 100.0 && s.currentAction == CompletedAction)
    && (s.timer.Interval? ==>
          && s.eraseState == Erasing
          && 0.0 <= s.timer.currentProgress < 100.0
          && s.progress == s.timer.currentProgress
          && s.timer.actionIndex == PhaseIndex(s.timer.currentProgress)
          && 0 <= s.timer.actionIndex < |Actions|
          && s.currentAction == ShownAction(s.timer.actionIndex))
    && (s.timer.CompletionPending? ==>
          s.eraseState == Erasing && s.progress == 100.0 && s.currentAction == CompletedAction)
  }

  /** The `useState` initial values. */
  function Initial(): (s: Screen)
    ensures Inv(s)
  {
    Screen(Idle, Quick, 0.0, "", "", false, false, NoTimer)
  }

  /** "Wipe" button on the idle screen. */
  function WipeClick(s: Screen): (t: Screen)
    ensures Inv(s) && s.eraseState == Idle ==> Inv(t) && t.showConfirmDialog
  {
    s.(showConfirmDialog := true)
  }

  /** "Cancel" in the dialog, or the dialog closed from outside. */
  function CancelDialog(s: Screen): (t: Screen)
    ensures Inv(s) ==> Inv(t) && !t.showConfirmDialog
  {
    s.(showConfirmDialog := false)
  }

  /** Editing the "Type DELETE to confirm" input. */
  function TypeConfirmText(s: Screen, text: string): (t: Screen)
    ensures Inv(s) ==> Inv(t)
    ensures IsValidConfirmation(t.confirmText, t.confirmChecked) <==> IsValidConfirmation(text, s.confirmChecked)
  {
    s.(confirmText := text)
  }

  /** Ticking or unticking the acknowledgement box. */
  function SetConfirmChecked(s: Screen, checked: bool): (t: Screen)
    ensures Inv(s) ==> Inv(t)
    ensures checked ==> IsValidConfirmation(t.confirmText, t.confirmChecked)
  {
    s.(confirmChecked := checked)
  }

  /** One of the two method checkboxes. */
  function SelectMethod(s: Screen, m: EraseMethod): (t: Screen)
    ensures Inv(s) ==> Inv(t)
    ensures IsValidConfirmation(t.confirmText, t.confirmChecked) == IsValidConfirmation(s.confirmText, s.confirmChecked)
  {
    s.(eraseMethod := m)
  }

  /** "Wipe Drive" in the dialog. Rejected: nothing changes (the handler only
      raises a toast and returns). Accepted: dialog closed, erasing, progress
      0, the preparing message, and the effect starts the interval with both
      closure variables at 0. */
  function ConfirmWipe(s: Screen): (t: Screen)
    ensures Inv(s) && s.eraseState == Idle ==> Inv(t)
    ensures t.eraseState == Erasing <==> s.eraseState == Erasing || IsValidConfirmation(s.confirmText, s.confirmChecked)
  {
    if !IsValidConfirmation(s.confirmText, s.confirmChecked) then s
    else s.(showConfirmDialog := false, eraseState := Erasing, progress := 0.0,
            currentAction := PreparingAction, timer := Interval(0.0, 0))
  }

  /** One firing of the interval, with `increment` standing for
      `Math.random() * 8 + 2`. */
  function Tick(s: Screen, increment: real): (t: Screen)
    requires s.timer.Interval? && 0.0 <= s.timer.currentProgress
    requires ValidIncrement(increment)
  {
    var currentProgress := s.timer.currentProgress + increment;
    if currentProgress >= 100.0 then
      s.(progress := 100.0, currentAction := CompletedAction, timer := CompletionPending)
    else
      var newActionIndex := PhaseIndex(currentProgress);
      var moved := newActionIndex != s.timer.actionIndex && newActionIndex < |Actions|;
      s.(progress := currentProgress,
         currentAction := if moved then Actions[newActionIndex] else s.currentAction,
         timer := Interval(currentProgress, if moved then newActionIndex else s.timer.actionIndex))
  }

  /** The one-second timeout scheduled by the final tick. */
  function Finish(s: Screen): (t: Screen)
    requires s.timer == CompletionPending
    ensures Inv(s) ==> Inv(t) && t.eraseState == Completed && t.progress == 100.0
  {
    s.(eraseState := Completed, timer := NoTimer)
  }

  /** "Erase Another Drive" on the completed screen. */
  function ResetToIdle(s: Screen): (t: Screen)
    ensures Inv(s) && s.eraseState == Completed ==> Inv(t) && !IsValidConfirmation(t.confirmText, t.confirmChecked)
  {
    s.(eraseState := Idle, progress := 0.0, currentAction := "", confirmText := "", confirmChecked := false)
  }

  /** The random amount of one firing, `Math.random() * 8 + 2`. */
  predicate ValidIncrement(increment: real) {
    2.0 <= increment < 10.0
  }

  /** Every firing of a run adds a valid random amount. */
  predicate AllValid(increments: seq<real>) {
    forall i :: 0 <= i < |increments| ==> ValidIncrement(increments[i])
  }

  /** The interval firing once per increment until it clears itself or the
      increments run out. */
  function RunTicks(s: Screen, increments: seq<real>): (t: Screen)
    requires s.timer.Interval? ==> 0.0 <= s.timer.currentProgress
    requires AllValid(increments)
    ensures t.eraseState == s.eraseState && t.eraseMethod == s.eraseMethod
    ensures t.confirmText == s.confirmText && t.confirmChecked == s.confirmChecked
    ensures t.showConfirmDialog == s.showConfirmDialog
    decreases |increments|
  {
    if increments == [] || !s.timer.Interval? then s
    else RunTicks(Tick(s, increments[0]), increments[1..])
  }

  /** Everything that can happen to the screen. */
  datatype Event =
    | WipeClicked
    | DialogCancelled
    | TextTyped(text: string)
    | BoxChecked(checked: bool)
    | MethodSelected(m: EraseMethod)
    | WipeConfirmed
    | IntervalFired(increment: real)
    | TimeoutFired
    | ResetClicked

  /** An event can happen only where its control is rendered or its timer
      is live: the wipe button and the method boxes on the idle screen, the
      dialog's controls while it is open, the reset button on the completed
      screen. */
  predicate Enabled(s: Screen, e: Event) {
    match e
    case WipeClicked => s.eraseState == Idle
    case DialogCancelled => s.eraseState == Idle && s.showConfirmDialog
    case TextTyped(_) => s.eraseState == Idle && s.showConfirmDialog
    case BoxChecked(_) => s.eraseState == Idle && s.showConfirmDialog
    case MethodSelected(_) => s.eraseState == Idle
    case WipeConfirmed => s.eraseState == Idle && s.showConfirmDialog
    case IntervalFired(r) => s.timer.Interval? && 0.0 <= s.timer.currentProgress && ValidIncrement(r)
    case TimeoutFired => s.timer == CompletionPending
    case ResetClicked => s.eraseState == Completed
  }

  function Next(s: Screen, e: Event): (t: Screen)
    requires Enabled(s, e)
  {
    match e
    case WipeClicked => WipeClick(s)
    case DialogCancelled => CancelDialog(s)
    case TextTyped(text) => TypeConfirmText(s, text)
    case BoxChecked(checked) => SetConfirmChecked(s, checked)
    case MethodSelected(m) => SelectMethod(s, m)
    case WipeConfirmed => ConfirmWipe(s)
    case IntervalFired(r) => Tick(s, r)
    case TimeoutFired => Finish(s)
    case ResetClicked => ResetToIdle(s)
  }

  /** A tick keeps the invariant. */
  lemma TickPreservesInv(s: Screen, increment: real)
    requires Inv(s) && s.timer.Interval? && ValidIncrement(increment)
    ensures Inv(Tick(s, increment))
  {
    var p := s.timer.currentProgress + increment;
    if p < 100.0 {
      var t := Tick(s, increment);
      assert t.timer.actionIndex == PhaseIndex(p);
      BookendsAreNotLabels(PhaseIndex(p));
    }
  }

  /** Every enabled event keeps the invariant. */
  lemma NextPreservesInv(s: Screen, e: Event)
    requires Inv(s) && Enabled(s, e)
    ensures Inv(Next(s, e))
  {
    if e.IntervalFired? {
      TickPreservesInv(s, e.increment);
    }
  }
}
