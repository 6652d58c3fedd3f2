/** The passwords of the repository's tests and a few more, worked through
    the model: `hello123` scores below 60 whatever its entropy estimate, the
    long mixed password scores at least 70 once its estimate reaches 32 bits,
    and a sequence such as `abcd` costs nothing because the scorer never
    calls `has_sequence`. */
module Scenarios {
  import opened Text
  import opened Tables
  import opened Charsets
  import opened Patterns
  import opened Common
  import opened Scoring

  /** `"hello123"` has no upper-case letter and no symbol. */
  lemma HelloClasses()
    ensures !Present("hello123", Uppercase) && !Present("hello123", Symbols)
    ensures |UsedNames("hello123")| <= 2
  {
    var pw := "hello123";
    assert forall i | 0 <= i < |pw| :: IsLower(pw[i]) || IsDigit(pw[i]);
    UsedNamesMatchPresence(pw, Lowercase);
  }

  /** `test_weak_password`: `"hello123"` scores below 60 (at most 20 + 10 + 25),
      is labelled "Strong" by the chain as written, and is told to add
      upper-case letters and symbols. */
  lemma WeakPasswordScore(e: real)
    ensures FinalScore("hello123", e) <= 55
    ensures Evaluate("hello123", e).score < 60
    ensures Evaluate("hello123", e).strengthLabel == "Strong"
    ensures AddUppercase in Feedback("hello123", e) && AddSymbols in Feedback("hello123", e)
  {
    var pw := "hello123";
    HelloClasses();
    EntropyPointsBounds(e);
    AdviceLineIff(pw, 3);
    AdviceLineIff(pw, 5);
    Congratulation(pw, e);
  }

  /** The strong password of the tests, its lower-cased form, and its shape. */
  const StrongPassword := "T!m3-Wh4l3__G0ld#9472"

  lemma StrongLowered()
    ensures Lower(StrongPassword) == "t!m3-wh4l3__g0ld#9472"
  {
    var lower := "t!m3-wh4l3__g0ld#9472";
    assert forall j | 0 <= j < |StrongPassword| :: Lower(StrongPassword)[j] == lower[j];
  }

  /** Every class is present in the strong password. */
  lemma StrongClasses()
    ensures Present(StrongPassword, Lowercase) && Present(StrongPassword, Uppercase)
    ensures Present(StrongPassword, Digits) && Present(StrongPassword, Symbols)
  {
    var pw := StrongPassword;
    assert ClassOf(pw[2]) == Lowercase;
    assert ClassOf(pw[0]) == Uppercase;
    assert ClassOf(pw[3]) == Digits;
    assert ClassOf(pw[1]) == Symbols;
  }

  /** No run of four: every position differs from one of the next two. */
  lemma NoRunsByNeighbours(pw: string)
    requires forall i | 0 <= i <= |pw| - RunLen :: pw[i + 1] != pw[i] || pw[i + 2] != pw[i]
    ensures !HasRepeatedRuns(pw)
  {
    forall i | 0 <= i <= |pw| - RunLen ensures !RunAt(pw, i) {
      if pw[i + 1] != pw[i] {
        assert i <= i + 1 < i + RunLen;
      } else {
        assert pw[i + 2] != pw[i];
      }
    }
  }

  /** No keyboard pattern: each has a character that `lower` lacks, at `absent[k]`. */
  lemma NoKeyboardByAbsence(pw: string, absent: seq<int>)
    requires |absent| == |KeyboardPatterns|
    requires forall k | 0 <= k < |KeyboardPatterns| ::
      0 <= absent[k] < |KeyboardPatterns[k]|
      && forall j | 0 <= j < |pw| :: Lower(pw)[j] != KeyboardPatterns[k][absent[k]]
    ensures !HasKeyboardPattern(pw, 4)
  {
    forall k | 0 <= k < |KeyboardPatterns| ensures !IsSubstring(KeyboardPatterns[k], Lower(pw)) {
      AbsentCharNotSubstring(KeyboardPatterns[k], Lower(pw), absent[k]);
    }
  }

  /** The strong password is not a common password or a simple variation of one. */
  lemma StrongNotCommon()
    ensures !LooksLikeCommonPassword(StrongPassword)
  {
    var pw := StrongPassword;
    assert Strip(pw) == pw by {
      assert StripLeading(pw) == pw;
      assert StripTrailing(pw) == pw;
    }
    assert !LettersThenDigits(pw) by {
      assert !IsLetter(pw[1]) && !IsDigit(pw[1]);
    }
    assert |Leet(Lower(pw))| == 21;
  }

  /** The strong password has no run of four equal characters. */
  lemma StrongNoRuns()
    ensures !HasRepeatedRuns(StrongPassword)
  {
    NoRunsByNeighbours(StrongPassword);
  }

  /** The strong password has no keyboard pattern. */
  lemma StrongNoKeyboard()
    ensures !HasKeyboardPattern(StrongPassword, 4)
  {
    StrongLowered();
    NoKeyboardByAbsence(StrongPassword, [0, 0, 0, 0, 1, 1, 0, 0]);
  }

  /** `test_strong_password`: with an entropy estimate of at least 32 bits the
      strong password scores at least 40 + 20 + 10 = 70 and gets no advice. */
  lemma StrongPasswordScore(e: real)
    requires e >= 32.0
    ensures Advice(StrongPassword) == []
    ensures Evaluate(StrongPassword, e).score >= 70
  {
    StrongClasses();
    StrongNotCommon();
    StrongNoRuns();
    StrongNoKeyboard();
    NoAdviceIff(StrongPassword);
    UsedNamesMatchPresence(StrongPassword, Lowercase);
    assert |UsedNames(StrongPassword)| == 4;
    EntropyPointsMonotone(32.0, e);
    assert EntropyPoints(32.0) == 10;
  }

  /** `"abcd1234"` is not common: its base `abcd` and its translation `abcdi2e4` are not listed either. */
  lemma AbcdNotCommon()
    ensures !LooksLikeCommonPassword("abcd1234")
  {
    var pw := "abcd1234";
    assert Strip(pw) == pw by {
      assert StripLeading(pw) == pw;
      assert StripTrailing(pw) == pw;
    }
    assert Lower(pw) == pw;
    assert pw !in CommonPasswords;
    assert !(LettersThenDigits(pw) && Lower(DropTrailingDigits(pw)) in CommonPasswords) by {
      assert LettersThenDigitsAt(pw, 4);
      DigitRuleBase(pw, 4);
      assert pw[..4] == "abcd" && Lower("abcd") == "abcd";
    }
    assert Leet(pw) !in CommonPasswords by {
      assert Leet(pw) == "abcdi2e4";
    }
  }

  /** `"abcd1234"` has no run of four equal characters and no keyboard pattern:
      `1234` is not `12345`. */
  lemma AbcdNoRunsNoKeyboard()
    ensures !HasRepeatedRuns("abcd1234") && !HasKeyboardPattern("abcd1234", 4)
  {
    var pw := "abcd1234";
    assert !HasRepeatedRuns(pw) by {
      NoRunsByNeighbours(pw);
    }
    assert !HasKeyboardPattern(pw, 4) by {
      assert Lower(pw) == pw;
      NoKeyboardByAbsence(pw, [0, 1, 0, 0, 0, 0, 4, 0]);
    }
  }

  /** `"abcd1234"` holds the sequence `abcd`, yet no penalty applies to it:
      `has_sequence` is defined but `score_password` never calls it. */
  lemma SequenceNotPenalized()
    ensures HasSequenceSpec("abcd1234", 4)
    ensures PenaltyPoints("abcd1234") == 0
  {
    SequenceExample();
    AbcdNotCommon();
    AbcdNoRunsNoKeyboard();
  }
}
