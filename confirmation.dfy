/** The confirmation gate of the erase dialog: the operator either types the
    word DELETE (in any letter case) or ticks "I understand this action cannot
    be undone". Either one suffices; the typed text is not trimmed. */
module Confirmation {

  /** The token the typed text must upper-case to. */
  const Token: string := "DELETE"

  /** The ASCII alphabet, lower and upper case, letter by letter. */
  const LowerLetters: string := "abcdefghijklmnopqrstuvwxyz"
  const UpperLetters: string := "ABCDEFGHIJKLMNOPQRSTUVWXYZ"

  /** The k-th lower-case letter is 'a' + k, and its capital is 'A' + k. */
  lemma LetterAt(k: int)
    requires 0 <= k < 26
    ensures LowerLetters[k] as int == 'a' as int + k
    ensures UpperLetters[k] as int == 'A' as int + k
  {
    if k < 13 {
      if k < 6 {
        if k < 3 { assert k == 0 || k == 1 || k == 2; } else { assert k == 3 || k == 4 || k == 5; }
      } else {
        if k < 9 { assert k == 6 || k == 7 || k == 8; } else { assert k == 9 || k == 10 || k == 11 || k == 12; }
      }
    } else {
      if k < 19 {
        if k < 16 { assert k == 13 || k == 14 || k == 15; } else { assert k == 16 || k == 17 || k == 18; }
      } else {
        if k < 22 { assert k == 19 || k == 20 || k == 21; } else { assert k == 22 || k == 23 || k == 24 || k == 25; }
      }
    }
  }

  /** Upper-casing of one character, restricted to ASCII: each letter of the
      lower-case alphabet becomes the capital at the same place, every other
      character is left as it is. */
  function UpperChar(c: char): (u: char)
    ensures forall k :: 0 <= k < |LowerLetters| && c == LowerLetters[k] ==> u == UpperLetters[k]
    ensures c !in LowerLetters ==> u == c
  {
    if 'a' <= c <= 'z' then
      var k := c as int - 'a' as int;
      LetterAt(k);
      assert forall j :: 0 <= j < |LowerLetters| && c == LowerLetters[j] ==> j == k by {
        forall j | 0 <= j < |LowerLetters| && c == LowerLetters[j] ensures j == k { LetterAt(j); }
      }
      (c as int - 32) as char
    else
      assert c !in LowerLetters by {
        forall j | 0 <= j < |LowerLetters| ensures LowerLetters[j] != c { LetterAt(j); }
      }
      c
  }

  /** The characters that upper-case to a capital letter are that letter and
      its lower-case form, and nothing else. */
  lemma UpperCharPreimage(c: char, d: char)
    requires d in UpperLetters
    ensures UpperChar(c) == d <==> c == d || c == LowerLetters[d as int - 'A' as int]
  {
    var k :| 0 <= k < |UpperLetters| && UpperLetters[k] == d;
    LetterAt(k);
    assert d as int - 'A' as int == k;
    if c in LowerLetters {
      var j :| 0 <= j < |LowerLetters| && LowerLetters[j] == c;
      LetterAt(j);
      assert UpperChar(c) == UpperLetters[j];
      assert c != d;
      assert UpperLetters[j] == d <==> j == k;
    } else {
      assert UpperChar(c) == c;
      assert c != LowerLetters[k];
    }
  }

  /** Upper-casing twice is upper-casing once. */
  lemma UpperCharIdempotent(c: char)
    ensures UpperChar(UpperChar(c)) == UpperChar(c)
  {
    if c in LowerLetters {
      var j :| 0 <= j < |LowerLetters| && LowerLetters[j] == c;
      LetterAt(j);
      var u := UpperChar(c);
      assert u !in LowerLetters by {
        forall i | 0 <= i < |LowerLetters| ensures LowerLetters[i] != u { LetterAt(i); }
      }
    }
  }

  /** Upper-casing of a string, character by character (the length never
      changes under ASCII upper-casing). */
  function ToUpperCase(s: string): (r: string)
    ensures |r| == |s|
    ensures forall i :: 0 <= i < |s| ==> r[i] == UpperChar(s[i])
  {
    if s == [] then [] else [UpperChar(s[0])] + ToUpperCase(s[1..])
  }

  /** Text whose characters upper-case, one by one, to the letters of `w`
      upper-cases to `w`. */
  lemma {:induction false} UpperCasesToLetters(s: string, w: string)
    requires |s| == |w| && forall i :: 0 <= i < |w| ==> UpperChar(s[i]) == w[i]
    ensures ToUpperCase(s) == w
    decreases |s|
  {
    if s != [] {
      assert UpperChar(s[0]) == w[0];
      UpperCasesToLetters(s[1..], w[1..]);
      assert w == [w[0]] + w[1..];
    }
  }

  /** Upper-casing gives DELETE exactly when the text has six characters
      that upper-case, one by one, to the letters of DELETE. */
  lemma UpperCasesToToken(s: string)
    ensures ToUpperCase(s) == Token <==>
      |s| == |Token| && forall i :: 0 <= i < |Token| ==> UpperChar(s[i]) == Token[i]
  {
    if |s| == |Token| && forall i :: 0 <= i < |Token| ==> UpperChar(s[i]) == Token[i] {
      UpperCasesToLetters(s, Token);
    }
  }

  /** The gate of the "Wipe Drive" handler: typed text upper-cases to DELETE,
      or the acknowledgement box is ticked. Character by character: accepted
      iff the box is ticked, or the text has exactly six characters each of
      which upper-cases to the matching letter of DELETE. */
  predicate IsValidConfirmation(confirmText: string, confirmChecked: bool): (accepted: bool)
    ensures accepted <==>
      confirmChecked ||
      (|confirmText| == |Token| && forall i :: 0 <= i < |Token| ==> UpperChar(confirmText[i]) == Token[i])
  {
    UpperCasesToToken(confirmText);
    ToUpperCase(confirmText) == Token || confirmChecked
  }

  /** The `disabled` expression of the "Wipe Drive" button, written as the
      component writes it: text does not upper-case to DELETE and the box is
      not ticked. Character by character: the box is off, and the text is
      not six long or one of its characters does not upper-case to the
      matching letter of DELETE. */
  predicate WipeButtonDisabled(confirmText: string, confirmChecked: bool): (disabled: bool)
    ensures disabled <==>
      !confirmChecked &&
      (|confirmText| != |Token| || exists i :: 0 <= i < |Token| && UpperChar(confirmText[i]) != Token[i])
  {
    UpperCasesToToken(confirmText);
    ToUpperCase(confirmText) != Token && !confirmChecked
  }

  /** The button is disabled exactly when the handler's gate rejects. */
  lemma DisabledIffRejected(confirmText: string, confirmChecked: bool)
    ensures WipeButtonDisabled(confirmText, confirmChecked) <==> !IsValidConfirmation(confirmText, confirmChecked)
  {
  }

  /** At each place of the token, the characters that upper-case to its
      letter are exactly the capital and the lower-case letter of "delete". */
  lemma TokenLetter(i: int, c: char)
    requires 0 <= i < |Token|
    ensures UpperChar(c) == Token[i] <==> c == Token[i] || c == "delete"[i]
  {
    var k := Token[i] as int - 'A' as int;
    assert 0 <= k < 26 && "delete"[i] as int == 'a' as int + k by {
      assert i == 0 || i == 1 || i == 2 || i == 3 || i == 4 || i == 5;
    }
    LetterAt(k);
    assert UpperLetters[k] == Token[i];
    assert LowerLetters[k] == "delete"[i];
    UpperCharPreimage(c, Token[i]);
  }

  /** "delete" typed in any mixture of cases is accepted without the box. */
  lemma AnyCaseOfDeleteAccepted(confirmText: string)
    requires |confirmText| == |Token|
    requires forall i :: 0 <= i < |Token| ==> confirmText[i] == Token[i] || confirmText[i] == "delete"[i]
    ensures IsValidConfirmation(confirmText, false)
  {
    forall i | 0 <= i < |Token| ensures UpperChar(confirmText[i]) == Token[i] {
      TokenLetter(i, confirmText[i]);
    }
  }

  /** Text of any other length (" DELETE", "DELETE ", "Delete Now", "") is
      rejected unless the box is ticked: nothing is trimmed. */
  lemma OtherLengthsNeedTheBox(confirmText: string, confirmChecked: bool)
    requires |confirmText| != |Token|
    ensures IsValidConfirmation(confirmText, confirmChecked) <==> confirmChecked
  {
  }

  /** Text that upper-cases to DELETE uses only the letters of "DELETE" and
      "delete" position by position: the gate accepts nothing else without
      the box. */
  lemma AcceptedTextIsACaseOfDelete(confirmText: string)
    requires IsValidConfirmation(confirmText, false)
    ensures |confirmText| == |Token|
    ensures forall i :: 0 <= i < |Token| ==> confirmText[i] == Token[i] || confirmText[i] == "delete"[i]
  {
    forall i | 0 <= i < |Token|
      ensures confirmText[i] == Token[i] || confirmText[i] == "delete"[i]
    {
      TokenLetter(i, confirmText[i]);
    }
  }

  /** Sample inputs, decided. */
  lemma Examples()
    ensures IsValidConfirmation("delete", false)
    ensures IsValidConfirmation("DeLeTe", false)
    ensures !IsValidConfirmation(" DELETE", false)
    ensures !IsValidConfirmation("Delete Now", false)
    ensures !IsValidConfirmation("yes", false)
    ensures IsValidConfirmation("", true)
  {
    AnyCaseOfDeleteAccepted("delete");
    AnyCaseOfDeleteAccepted("DeLeTe");
  }
}
