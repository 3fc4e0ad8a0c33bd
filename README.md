# Drive erasure screen: a verified model of its erase workflow

The `DriveErasure` React screen walks an operator through wiping a drive. On
the idle screen the operator chooses an erase method (quick or secure) and
presses "Wipe", which opens a confirmation dialog. There the operator types
`DELETE` or ticks "I understand this action cannot be undone", and presses
"Wipe Drive". An
accepted confirmation switches the screen to `erasing`. A progress effect then
starts a 500 ms interval. Each firing adds a random amount in [2, 10) to the
progress and picks one of seven phase labels from it. Once the sum reaches 100,
the interval stops and a one-second timeout switches the screen to `completed`.
"Erase Another Drive" returns to idle.

The model has five modules:

- `Confirmation` (`confirmation.dfy`): the gate `IsValidConfirmation` with
  ASCII upper-casing, and the `disabled` expression of the "Wipe Drive" button.
- `Phases` (`phases.dfy`): the seven labels, the two fixed messages and
  `PhaseIndex(p) = floor(p / 100 * 7)`.
- `Workflow` (`workflow.dfy`): the screen's state as one value (`Screen`: the
  seven state fields plus the effect's timers). It has one pure step function
  per handler, and the invariant `Inv` that every reachable screen satisfies.
  The interval's closure variables `currentProgress` and `actionIndex` live in
  `Timer.Interval`. `Timer.CompletionPending` is the scheduled timeout.
- `WorkflowProperties` (`workflow_properties.dfy`): lemmas about single steps,
  runs of the interval and whole event traces.
- `DriveErasureScreen` (`drive_erasure.dfy`): the class `DriveErasure`, whose
  fields are the component's state. It has one method per handler, plus `Tick`
  (one interval firing, the random amount passed in), `Finish` (the timeout)
  and `RunInterval` (the interval firing repeatedly until it clears itself).
  Each of these methods is proved equal to its step function and keeps
  `Inv`. The helper `StartProgressEffect` is the exception: it runs inside
  `HandleConfirmWipe`, on a state that does not yet satisfy `Inv`, and is
  proved only to set the interval and change nothing else.

Handlers require the screen their control is rendered on:
- the wipe button and the method boxes need the idle screen;
- the dialog's controls need the dialog to be open;
- the reset button needs the completed screen.

`Tick` requires a live interval, and `Finish` requires the pending timeout.

Behaviour the model makes explicit:

- The `confirming` value of `EraseState` is never assigned. The open dialog is
  a separate boolean, so every reachable screen has `eraseState != Confirming`.
- The typed text is not trimmed. `" DELETE"` and `"Delete Now"` are rejected
  unless the box is ticked, and any case of `delete` is accepted.
- `actionIndex` starts at 0, and the action changes only when the index
  changes. So the first label, "Initializing secure erase...", is never shown.
  "Preparing to erase drive..." stays until progress reaches 100/7.
- The labels always say "Pass _ of 3". The erase method never reaches the
  interval.
- The "Wipe Drive" button is disabled exactly when the gate rejects. The
  handler's rejection branch therefore runs only if the handler is called while
  the button is disabled.

Unlike a typical secure-erase design, the code:
- does not trim the typed text before the gate compares it;
- never enters a `confirming` state;
- draws progress from random increments, not from completed phases;
- ends on the message "Erasure completed successfully", not on the last
  phase label.

## Model

| member | source | states |
|---|---|---|
| Confirmation.UpperChar | src/components/DriveErasure.tsx:103 | against the literal alphabets `a..z` and `A..Z`: the k-th lower-case letter becomes the k-th capital, and a character outside `a..z` is kept |
| Confirmation.UpperCharPreimage | src/components/DriveErasure.tsx:103 | the characters that upper-case to a capital letter are exactly that letter and its lower-case form |
| Confirmation.UpperCharIdempotent | src/components/DriveErasure.tsx:103 | upper-casing an already upper-cased character changes nothing |
| Confirmation.ToUpperCase | src/components/DriveErasure.tsx:103 | `toUpperCase` over ASCII keeps the length and upper-cases each character in place |
| Confirmation.UpperCasesToLetters | src/components/DriveErasure.tsx:103 | text whose characters each upper-case to the matching character of a word upper-cases to that word |
| Confirmation.UpperCasesToToken | src/components/DriveErasure.tsx:103 | `toUpperCase() === "DELETE"` holds iff the text has exactly six characters that upper-case, in order, to D, E, L, E, T, E |
| Confirmation.IsValidConfirmation | src/components/DriveErasure.tsx:103 | the handler's gate accepts iff the box is ticked or the text has exactly six characters that upper-case to D, E, L, E, T, E |
| Confirmation.AnyCaseOfDeleteAccepted | src/components/DriveErasure.tsx:103 | "delete" in any mix of cases is accepted without the box |
| Confirmation.AcceptedTextIsACaseOfDelete | src/components/DriveErasure.tsx:103 | without the box, only a case variant of "delete" is accepted |
| Confirmation.OtherLengthsNeedTheBox | src/components/DriveErasure.tsx:103 | text of any length other than six (padded, "Delete Now", empty) is accepted iff the box is ticked: nothing is trimmed |
| Confirmation.Examples | src/components/DriveErasure.tsx:103 | "delete" and "DeLeTe" pass; " DELETE", "Delete Now" and "yes" fail without the box; empty text with the box passes |
| Confirmation.WipeButtonDisabled | src/components/DriveErasure.tsx:405 | the "Wipe Drive" button is disabled iff the box is off and the text is not six long or has a character that does not upper-case to the matching letter of DELETE |
| Confirmation.DisabledIffRejected | src/components/DriveErasure.tsx:405 | the "Wipe Drive" button's `disabled` expression is exactly the negation of the handler's gate |
| Phases.PhaseIndex | src/components/DriveErasure.tsx:87-88 | label `i` covers progress from 100 i / 7 up to but excluding 100 (i + 1) / 7; for progress in [0, 100) the index lies in 0..6, so the `< actions.length` test always holds |
| Phases.PhaseIndexMonotone | src/components/DriveErasure.tsx:87 | more progress never gives a smaller label index |
| Phases.FirstPhaseBelowOneSeventh | src/components/DriveErasure.tsx:87 | the index is 0 exactly while progress is below 100/7 |
| Phases.ActionsDistinct | src/components/DriveErasure.tsx:53-61 | the seven labels are pairwise different texts |
| Phases.BookendsAreNotLabels | src/components/DriveErasure.tsx:53-61 | neither "Preparing to erase drive..." nor "Erasure completed successfully" is one of the labels |
| Workflow.Inv | src/components/DriveErasure.tsx:26-131 | no contract: the invariant of every reachable screen (never `confirming`; the dialog only on idle; a live interval only while erasing, with progress equal to the closure's sum below 100 and the action matching the closure's index; the timeout only at 100 with the completion message); `WorkflowProperties.ReachableInv` proves it of every reachable screen |
| Workflow.Enabled | src/components/DriveErasure.tsx:133-414 | no contract: an event is possible only where its control is rendered or its timer is live (the reset button on the completed screen, no controls while erasing, the wipe button and method boxes on the idle screen, the dialog controls while the dialog is open); `ProgressNeverDecreasesWhileErasing` and `CompletedOnlyAfterFullProgress` rest on it |
| Workflow.Initial | src/components/DriveErasure.tsx:26-32 | the initial state (idle, quick, progress 0, empty text, box and dialog off, no timer) satisfies the invariant |
| Workflow.WipeClick | src/components/DriveErasure.tsx:98-100 | on the idle screen, opening the dialog keeps the invariant |
| Workflow.CancelDialog | src/components/DriveErasure.tsx:397 | closing the dialog keeps the invariant |
| Workflow.TypeConfirmText | src/components/DriveErasure.tsx:376 | editing the text keeps the invariant, and the gate then judges the new text with the unchanged box |
| Workflow.SetConfirmChecked | src/components/DriveErasure.tsx:386 | ticking or unticking the box keeps the invariant, and with the box ticked the gate accepts whatever was typed |
| Workflow.SelectMethod | src/components/DriveErasure.tsx:293-313 | choosing a method keeps the invariant and does not change the gate's verdict |
| Workflow.ConfirmWipe | src/components/DriveErasure.tsx:102-123 | from the idle screen the handler keeps the invariant, and the screen is erasing afterwards iff the gate accepted; `WorkflowProperties.ConfirmWipeGate` gives the full new state |
| Workflow.Tick | src/components/DriveErasure.tsx:66-92 | no contract: one interval firing; its meaning is given by `WorkflowProperties.TickAdvances`, `WorkflowProperties.PhaseLabelFollowsIndex` and `Workflow.TickPreservesInv` |
| Workflow.Finish | src/components/DriveErasure.tsx:73-79 | the timeout keeps the invariant and gives `completed` with progress 100 |
| Workflow.ResetToIdle | src/components/DriveErasure.tsx:125-131 | from the completed screen the reset keeps the invariant, and the cleared inputs leave the gate rejecting until the operator types or ticks again |
| Workflow.RunTicks | src/components/DriveErasure.tsx:66-92 | repeated firings leave the erase state, the method, the typed text, the box and the dialog flag as they were |
| Workflow.TickPreservesInv | src/components/DriveErasure.tsx:66-92 | an interval firing keeps the invariant: progress equals the closure's sum below 100, the index is the phase index of that sum, and the action is the one for that index |
| Workflow.NextPreservesInv | src/components/DriveErasure.tsx:98-131 | every handler, interval firing and timeout enabled in an invariant state leads to an invariant state |
| WorkflowProperties.ReplayKeepsInv | src/components/DriveErasure.tsx:98-131 | any sequence of enabled events from an invariant state ends in an invariant state |
| WorkflowProperties.ReachableInv | src/components/DriveErasure.tsx:22-32 | every state reachable from the initial one satisfies the invariant, is never `confirming`, and never shows the first label |
| WorkflowProperties.FirstLabelNeverShown | src/components/DriveErasure.tsx:63-91 | in every invariant state the current action differs from "Initializing secure erase..." |
| WorkflowProperties.ConfirmWipeGate | src/components/DriveErasure.tsx:102-117 | a rejected confirmation leaves the whole state as it was; an accepted one (and only that) enters erasing with the dialog closed, progress 0 and the preparing message, keeping method, text and box |
| WorkflowProperties.TickAdvances | src/components/DriveErasure.tsx:66-84 | a firing raises progress strictly by at most the increment, never past 100; the interval stops iff the sum reaches 100 and then progress is exactly 100 with the completion message; nothing outside progress, action and timer changes |
| WorkflowProperties.PhaseLabelFollowsIndex | src/components/DriveErasure.tsx:84-91 | on a non-final firing the index is the phase index of the new progress, lies in 0..6, never decreases, and the action changes only with the index, to that index's label |
| WorkflowProperties.TickIgnoresMethod | src/components/DriveErasure.tsx:51-92 | the firing's result does not depend on the erase method |
| WorkflowProperties.CompletedOnlyAfterFullProgress | src/components/DriveErasure.tsx:69-79 | `completed` is entered only by the timeout, only from `erasing`, and only with progress exactly 100 |
| WorkflowProperties.ProgressNeverDecreasesWhileErasing | src/components/DriveErasure.tsx:66-92 | while erasing, no enabled event lowers progress or leaves for idle |
| WorkflowProperties.TicksFinish | src/components/DriveErasure.tsx:66-81 | from any live interval, ceil((100 - progress) / 2) valid firings always stop it, with progress 100 and the completion message |
| WorkflowProperties.TicksCannotFinishEarly | src/components/DriveErasure.tsx:66-81 | firings whose maximal sum stays within 100 never stop the interval, and each adds between 2 and 10 |
| WorkflowProperties.TicksKeepInv | src/components/DriveErasure.tsx:66-92 | any run of valid firings keeps the invariant |
| WorkflowProperties.FiftyTicksSuffice | src/components/DriveErasure.tsx:66-81 | after an accepted confirmation, 50 firings always end the interval, and the timeout then gives `completed` at 100 |
| WorkflowProperties.TenTicksNeverSuffice | src/components/DriveErasure.tsx:66-81 | after an accepted confirmation, 10 firings never end the interval: at least 11 are needed |
| DriveErasureScreen.DriveErasure.constructor | src/components/DriveErasure.tsx:26-32 | the `useState` initial values, satisfying the invariant |
| DriveErasureScreen.DriveErasure.HandleWipeClick | src/components/DriveErasure.tsx:98-100 | only the dialog flag changes, to open |
| DriveErasureScreen.DriveErasure.CancelConfirmDialog | src/components/DriveErasure.tsx:397 | only the dialog flag changes, to closed |
| DriveErasureScreen.DriveErasure.SetConfirmText | src/components/DriveErasure.tsx:376 | only the typed text changes |
| DriveErasureScreen.DriveErasure.SetConfirmChecked | src/components/DriveErasure.tsx:386 | only the acknowledgement flag changes |
| DriveErasureScreen.DriveErasure.SetEraseMethod | src/components/DriveErasure.tsx:293-313 | only the erase method changes |
| DriveErasureScreen.DriveErasure.HandleConfirmWipe | src/components/DriveErasure.tsx:102-123 | rejected: the state is unchanged; accepted: erasing, progress 0, preparing message, dialog closed, interval started at 0, method and inputs kept; the invariant holds |
| DriveErasureScreen.DriveErasure.StartProgressEffect | src/components/DriveErasure.tsx:51-66 | the effect sets the interval with both closure variables at 0 and changes nothing else |
| DriveErasureScreen.DriveErasure.Tick | src/components/DriveErasure.tsx:66-92 | the firing equals `Workflow.Tick`, keeps the invariant, raises progress strictly up to at most 100, and stops the interval iff the sum reaches 100 |
| DriveErasureScreen.DriveErasure.Finish | src/components/DriveErasure.tsx:73-79 | the timeout moves `erasing` to `completed` with progress 100 and keeps the invariant |
| DriveErasureScreen.DriveErasure.ResetToIdle | src/components/DriveErasure.tsx:125-131 | idle, progress 0, empty action, empty text, box off; method and dialog flag kept |
| DriveErasureScreen.DriveErasure.RunInterval | src/components/DriveErasure.tsx:66-94 | the repeated firings equal `Workflow.RunTicks`, fire at most 50 times, with 50 increments always reach the completion timeout, and leave the screen erasing with method, text, box and dialog flag unchanged |

## Left out

- Rendering, styling and the UI library components (cards, dialogs, badges, the progress bar) are presentation. So are the toasts: the "Confirmation Required", "Erasure Started" and "Drive Erasure Complete" notifications are not modelled.
- `setInterval`/`setTimeout` timing is replaced by the explicit steps `Tick`, `Finish` and `RunInterval`. So is the effect's cleanup, which clears the interval when the state leaves `erasing`. In the model the interval always clears itself before the state can change.
- The effect also re-runs if the `toast` function's identity changes. That would restart a second interval from 0. The model assumes `toast` is stable.
- `Math.random` is left out. Each increment is a caller-supplied real in [2, 10).
- Floating-point rounding is left out: progress is a Dafny `real`. The displayed `Math.round(progress)` is presentation.
- `certificateId`, the start and end dates, and the hard-coded drive record are not modelled. They are random or clock-based display values, recomputed on every render.
- The certificate dialog's `showCertificate` flag is presentation state, and no handler of the core reads it.
- Upper-casing is ASCII only. Unicode case mappings, including those that change a string's length, are not modelled.
- There is no code for a pluggable erase executor, erase plans with per-method pass counts, cancellation during an erase, failure paths, drive locking or certificate uniqueness. None of these is modelled.
