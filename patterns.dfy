/** The three pattern detectors: `has_repeated_runs`, `has_sequence` and
    `has_keyboard_pattern`. The regular expression of the first is written out
    as a quantifier over positions; the second keeps its nested loops. */
module Patterns {
  import opened Text
  import opened Tables

  /** The default `run_len`, the only one the scorer uses. */
  const RunLen := 4

  /** `(.)\1{3,}` matches at `i`: a character other than a line feed (which
      `.` does not match) followed by at least three copies of itself. */
  predicate RunAt(pw: string, i: int) {
    && 0 <= i <= |pw| - RunLen
    && pw[i] != '\n'
    && (forall k :: i <= k < i + RunLen ==> pw[k] == pw[i])
  }

  /** `has_repeated_runs`: `re.search` finds the pattern somewhere. */
  predicate HasRepeatedRuns(pw: string) {
    exists i :: 0 <= i <= |pw| - RunLen && RunAt(pw, i)
  }

  /** `n` copies of `c`. */
  function Repeat(c: char, n: nat): (r: string)
    ensures |r| == n
    ensures forall k :: 0 <= k < n ==> r[k] == c
  {
    seq(n, _ => c)
  }

  /** A repeated run is exactly four copies in a row of one character other than a line feed. */
  lemma RepeatedRunsIff(pw: string)
    ensures HasRepeatedRuns(pw) <==> exists c :: c != '\n' && IsSubstring(Repeat(c, RunLen), pw)
  {
    if HasRepeatedRuns(pw) {
      var i :| 0 <= i <= |pw| - RunLen && RunAt(pw, i);
      var c := pw[i];
      forall k | 0 <= k < RunLen ensures pw[i..i + RunLen][k] == Repeat(c, RunLen)[k] {
        assert pw[i..i + RunLen][k] == pw[i + k];
      }
      assert pw[i..i + RunLen] == Repeat(c, RunLen);
      assert OccursAt(Repeat(c, RunLen), pw, i);
    }
    if exists c :: c != '\n' && IsSubstring(Repeat(c, RunLen), pw) {
      var c :| c != '\n' && IsSubstring(Repeat(c, RunLen), pw);
      var i :| 0 <= i <= |pw| - RunLen && OccursAt(Repeat(c, RunLen), pw, i);
      forall k | i <= k < i + RunLen ensures pw[k] == pw[i] {
        assert pw[k] == pw[i..i + RunLen][k - i] == c;
        assert pw[i] == pw[i..i + RunLen][0] == c;
      }
      assert RunAt(pw, i);
    }
  }

  /** A repeated run is still found when text is added on either side. */
  lemma RepeatedRunsExtend(pw: string, before: string, after: string)
    requires HasRepeatedRuns(pw)
    ensures HasRepeatedRuns(before + pw + after)
  {
    var i :| 0 <= i <= |pw| - RunLen && RunAt(pw, i);
    var t := before + pw + after;
    var j := |before| + i;
    forall k | j <= k < j + RunLen ensures t[k] == t[j] {
      assert t[k] == pw[k - |before|];
    }
    assert RunAt(t, j);
  }

  /** The window `t[i:i+n]` fits inside `t` and occurs in `s`. */
  predicate WindowOccurs(t: string, i: int, n: nat, s: string) {
    0 <= i <= |t| - n && IsSubstring(t[i..i + n], s)
  }

  /** Some window of length `n` of `t` occurs in `s`. */
  predicate SomeWindowOccurs(t: string, n: nat, s: string) {
    exists i :: 0 <= i <= |t| - n && WindowOccurs(t, i, n, s)
  }

  /** What `has_sequence` decides: some window of length `seqLen` of a
      lowercased canonical sequence, or of its reverse, occurs in `pw.lower()`. */
  predicate HasSequenceSpec(pw: string, seqLen: nat) {
    exists k :: 0 <= k < |Sequences| &&
      (SomeWindowOccurs(Lower(Sequences[k]), seqLen, Lower(pw))
       || SomeWindowOccurs(Reverse(Lower(Sequences[k])), seqLen, Lower(pw)))
  }

  /** One of the inner loops of `has_sequence`: tries the windows of `t` from the left. */
  method ScanWindows(t: string, seqLen: nat, lower: string) returns (found: bool)
    ensures found <==> SomeWindowOccurs(t, seqLen, lower)
  {
    var i := 0;
    while i < |t| - seqLen + 1
      invariant 0 <= i <= |t| - seqLen + 1 || i == 0
      invariant forall i' :: 0 <= i' < i ==> !WindowOccurs(t, i', seqLen, lower)
    {
      var chunk := t[i..i + seqLen];
      if IsSubstring(chunk, lower) {
        assert WindowOccurs(t, i, seqLen, lower);
        return true;
      }
      i := i + 1;
    }
    found := false;
  }

  /** `has_sequence`: for each canonical sequence, its forward windows and
      then its reversed windows, stopping at the first one found. */
  method HasSequence(pw: string, seqLen: nat) returns (found: bool)
    ensures found <==> HasSequenceSpec(pw, seqLen)
  {
    var lower := Lower(pw);
    var k := 0;
    while k < |Sequences|
      invariant 0 <= k <= |Sequences|
      invariant forall k' :: 0 <= k' < k ==>
        !SomeWindowOccurs(Lower(Sequences[k']), seqLen, lower)
        && !SomeWindowOccurs(Reverse(Lower(Sequences[k'])), seqLen, lower)
    {
      var seqLower := Lower(Sequences[k]);
      found := ScanWindows(seqLower, seqLen, lower);
      if found {
        return;
      }
      var rev := Reverse(seqLower);
      found := ScanWindows(rev, seqLen, lower);
      if found {
        return;
      }
      k := k + 1;
    }
    found := false;
  }

  /** A sequence is still found when text is added on either side. */
  lemma SequenceExtends(pw: string, seqLen: nat, before: string, after: string)
    requires HasSequenceSpec(pw, seqLen)
    ensures HasSequenceSpec(before + pw + after, seqLen)
  {
    var lower := Lower(before + pw + after);
    assert lower == Lower(before) + Lower(pw) + Lower(after) by {
      LowerConcat(before + pw, after);
      LowerConcat(before, pw);
    }
    var k :| 0 <= k < |Sequences| &&
      (SomeWindowOccurs(Lower(Sequences[k]), seqLen, Lower(pw))
       || SomeWindowOccurs(Reverse(Lower(Sequences[k])), seqLen, Lower(pw)));
    var t := if SomeWindowOccurs(Lower(Sequences[k]), seqLen, Lower(pw))
             then Lower(Sequences[k]) else Reverse(Lower(Sequences[k]));
    var i :| 0 <= i <= |t| - seqLen && WindowOccurs(t, i, seqLen, Lower(pw));
    SubstringExtends(t[i..i + seqLen], Lower(pw), Lower(before), Lower(after));
    assert WindowOccurs(t, i, seqLen, lower);
  }

  /** Lowering the canonical sequences: the upper-case alphabet becomes the
      lower-case one, so only the alphabet and the digits really count. */
  lemma SequencesLowered()
    ensures Lower(Sequences[0]) == Sequences[0]
    ensures Lower(Sequences[1]) == Sequences[0]
    ensures Lower(Sequences[2]) == Sequences[2]
  {
    assert forall i | 0 <= i < 26 :: Lower(Sequences[1])[i] == Sequences[0][i];
    assert forall i | 0 <= i < 26 :: Lower(Sequences[0])[i] == Sequences[0][i];
    assert forall i | 0 <= i < 10 :: Lower(Sequences[2])[i] == Sequences[2][i];
  }

  /** `has_sequence` holds exactly when a window of the alphabet or of the
      digits, forwards or backwards, occurs in `pw.lower()`. */
  lemma SequenceSpecByTable(pw: string, seqLen: nat)
    ensures HasSequenceSpec(pw, seqLen) <==>
      || SomeWindowOccurs(Sequences[0], seqLen, Lower(pw))
      || SomeWindowOccurs(Reverse(Sequences[0]), seqLen, Lower(pw))
      || SomeWindowOccurs(Sequences[2], seqLen, Lower(pw))
      || SomeWindowOccurs(Reverse(Sequences[2]), seqLen, Lower(pw))
  {
    SequencesLowered();
  }

  /** `"abcd1234"` contains the sequence `abcd`. */
  lemma SequenceExample()
    ensures HasSequenceSpec("abcd1234", 4)
  {
    var t := Lower(Sequences[0]);
    assert t[0..4] == "abcd";
    assert Lower("abcd1234")[0..4] == "abcd";
    assert OccursAt(t[0..4], Lower("abcd1234"), 0);
    assert WindowOccurs(t, 0, 4, Lower("abcd1234"));
  }

  /** `has_keyboard_pattern`: some listed pattern at least `minLen` long (and
      non-empty, since `any` tests the pattern's truth) occurs in `pw.lower()`. */
  predicate HasKeyboardPattern(pw: string, minLen: int) {
    exists k :: 0 <= k < |KeyboardPatterns| &&
      KeyboardPatterns[k] != [] && |KeyboardPatterns[k]| >= minLen &&
      IsSubstring(KeyboardPatterns[k], Lower(pw))
  }

  /** With the default `min_len` of 4 every listed pattern qualifies, so the
      detector holds exactly when some listed pattern occurs in `pw.lower()`. */
  lemma KeyboardPatternDefault(pw: string)
    ensures HasKeyboardPattern(pw, 4) <==>
      exists k :: 0 <= k < |KeyboardPatterns| && IsSubstring(KeyboardPatterns[k], Lower(pw))
  {
    assert forall k :: 0 <= k < |KeyboardPatterns| ==> |KeyboardPatterns[k]| >= 4;
  }

  /** A keyboard pattern is still found when text is added on either side. */
  lemma KeyboardPatternExtends(pw: string, minLen: int, before: string, after: string)
    requires HasKeyboardPattern(pw, minLen)
    ensures HasKeyboardPattern(before + pw + after, minLen)
  {
    var k :| 0 <= k < |KeyboardPatterns| &&
      KeyboardPatterns[k] != [] && |KeyboardPatterns[k]| >= minLen &&
      IsSubstring(KeyboardPatterns[k], Lower(pw));
    assert Lower(before + pw + after) == Lower(before) + Lower(pw) + Lower(after) by {
      LowerConcat(before + pw, after);
      LowerConcat(before, pw);
    }
    SubstringExtends(KeyboardPatterns[k], Lower(pw), Lower(before), Lower(after));
  }

  /** `"Qwerty123"` contains the keyboard pattern `qwerty`, whatever its case. */
  lemma KeyboardPatternExample()
    ensures HasKeyboardPattern("Qwerty123", 4)
  {
    assert Lower("Qwerty123")[0..6] == "qwerty";
    assert OccursAt(KeyboardPatterns[0], Lower("Qwerty123"), 0);
  }

  /** `"aaaa1234"` has a repeated run at its start. */
  lemma RepeatedRunsExample()
    ensures HasRepeatedRuns("aaaa1234")
  {
    assert RunAt("aaaa1234", 0);
  }

  /** `"aaa1234b"` has no repeated run: three copies are not enough. */
  lemma NoRepeatedRunsExample()
    ensures !HasRepeatedRuns("aaa1234b")
  {
    var pw := "aaa1234b";
    forall i | 0 <= i <= |pw| - RunLen ensures !RunAt(pw, i) {
      assert pw[i + 3] != pw[i];
    }
  }

  /** `"qwertyxyz"` starts with the keyboard pattern `qwerty`. */
  lemma KeyboardPrefixExample()
    ensures HasKeyboardPattern("qwertyxyz", 4)
  {
    assert Lower("qwertyxyz") == "qwertyxyz";
    assert OccursAt(KeyboardPatterns[0], "qwertyxyz", 0);
  }
}
