/** The phase labels shown while the erase runs, and the formula that picks
    one from the progress percentage. */
module Phases {

  /** The fixed list of seven phase labels. It always speaks of three
      overwrite passes, whatever erase method was chosen. */
  const Actions: seq<string> := [
    "Initializing secure erase...",
    "Scanning drive sectors...",
    "Overwriting data (Pass 1 of 3)...",
    "Overwriting data (Pass 2 of 3)...",
    "Overwriting data (Pass 3 of 3)...",
    "Verifying erasure...",
    "Finalizing secure wipe..."
  ]

  /** The action shown the moment an accepted confirmation arms the erase. */
  const PreparingAction: string := "Preparing to erase drive..."

  /** The action shown once progress has reached 100. */
  const CompletedAction: string := "Erasure completed successfully"

  /** floor(p / 100 * number of labels): label `i` covers the progress from
      100 i / 7 up to, but not including, 100 (i + 1) / 7, and below 100 the
      index always names one of the seven labels. */
  function PhaseIndex(p: real): (i: int)
    ensures i as real * 100.0 <= p * |Actions| as real < (i + 1) as real * 100.0
    ensures 0.0 <= p < 100.0 ==> 0 <= i < |Actions|
  {
    var x := p / 100.0 * |Actions| as real;
    assert x * 100.0 == p * |Actions| as real;
    x.Floor
  }

  /** More progress never selects an earlier label. */
  lemma PhaseIndexMonotone(p: real, q: real)
    requires p <= q
    ensures PhaseIndex(p) <= PhaseIndex(q)
  {
    assert p / 100.0 * |Actions| as real <= q / 100.0 * |Actions| as real;
  }

  /** The first label is selected exactly while progress is below 100/7. */
  lemma FirstPhaseBelowOneSeventh(p: real)
    requires 0.0 <= p
    ensures PhaseIndex(p) == 0 <==> p * 7.0 < 100.0
  {
  }

  /** No two labels are the same text. */
  lemma ActionsDistinct(i: int, j: int)
    requires 0 <= i < |Actions| && 0 <= j < |Actions| && i != j
    ensures Actions[i] != Actions[j]
  {
  }

  /** Neither the preparing nor the completed message is one of the labels. */
  lemma BookendsAreNotLabels(i: int)
    requires 0 <= i < |Actions|
    ensures Actions[i] != PreparingAction && Actions[i] != CompletedAction
  {
  }
}
