/** `score_password` and its result record `StrengthResult`: length tiers,
    class variety, a bounded entropy contribution, fixed penalties, a clamp to
    0..100, the label chain and the feedback list. */
module Scoring {
  import opened Numbers
  import opened Text
  import opened Charsets
  import opened Entropy
  import opened Patterns
  import opened Common

  /** The feedback lines the scorer can produce, one constructor per line. */
  datatype Message =
    | EmptyPassword
    | TooShort | DecentLength
    | AddLowercase | AddUppercase | AddDigits | AddSymbols
    | AvoidCommon | AvoidRepeats | AvoidKeyboard
    | GreatPassword

  /** The exact text of each feedback line. */
  function MessageText(m: Message): string {
    match m
    case EmptyPassword => "Password is empty"
    case TooShort => "Too short: aim for at least 12-16 characters."
    case DecentLength => "Decent length, but 12-16+ is better."
    case AddLowercase => "add lowercase letters to increase variety."
    case AddUppercase => "Add uppercase letters to increase variety."
    case AddDigits => "Add digits to increase variety."
    case AddSymbols => "Add symbols(e.g., !@#$) to increase variety."
    case AvoidCommon => "This looks like a common password or easy variation-avoid it."
    case AvoidRepeats => "Avoid repeated characters (e.g., aaaa, 1111)."
    case AvoidKeyboard => "Avoid keyboard patterns (e.g., qwerty, asdf)."
    case GreatPassword => "Great password. Consider using a password manager to generate/store unique passwords."
  }

  /** The feedback as the list of strings the source returns. */
  function Rendered(lines: seq<Message>): (r: seq<string>)
    ensures |r| == |lines|
  {
    seq(|lines|, i requires 0 <= i < |lines| => MessageText(lines[i]))
  }

  /** Recovers the message from its text, by its length and one character. */
  function MessageOf(t: string): Message {
    if |t| == 17 then EmptyPassword
    else if |t| == 36 then DecentLength
    else if |t| == 42 then (if t[0] == 'a' then AddLowercase else AddUppercase)
    else if |t| == 31 then AddDigits
    else if |t| == 44 then AddSymbols
    else if |t| == 61 then AvoidCommon
    else if |t| == 45 then (if t[|t| - 3] == 'r' then TooShort else if t[|t| - 3] == '1' then AvoidRepeats else AvoidKeyboard)
    else GreatPassword
  }

  /** Each text leads back to its message. */
  lemma MessageOfText(m: Message)
    ensures MessageOf(MessageText(m)) == m
  {
    if m == TooShort || m == AvoidRepeats || m == AvoidKeyboard {
      MidTextsInvertible(m);
    } else if m == AvoidCommon || m == GreatPassword {
      LongTextsInvertible(m);
    } else {
      ShortTextsInvertible(m);
    }
  }

  /** The texts shorter than 45 characters. */
  lemma ShortTextsInvertible(m: Message)
    requires m == EmptyPassword || m == DecentLength || m == AddLowercase || m == AddUppercase || m == AddDigits || m == AddSymbols
    ensures MessageOf(MessageText(m)) == m
  {
    var t := MessageText(m);
    if m == EmptyPassword {
      assert |t| == 17;
      assert MessageOf(t) == EmptyPassword;
    } else if m == DecentLength {
      assert |t| == 36;
      assert MessageOf(t) == DecentLength;
    } else if m == AddLowercase {
      assert |t| == 42;
      assert t[0] == 'a';
      assert MessageOf(t) == AddLowercase;
    } else if m == AddUppercase {
      assert |t| == 42;
      assert t[0] == 'A';
      assert MessageOf(t) == AddUppercase;
    } else if m == AddDigits {
      assert |t| == 31;
      assert MessageOf(t) == AddDigits;
    } else {
      assert |t| == 44;
      assert MessageOf(t) == AddSymbols;
    }
  }

  /** The three texts of 45 characters, told apart by their third character from the end. */
  lemma MidTextsInvertible(m: Message)
    requires m == TooShort || m == AvoidRepeats || m == AvoidKeyboard
    ensures MessageOf(MessageText(m)) == m
  {
    var t := MessageText(m);
    if m == TooShort {
      assert |t| == 45;
      assert t[|t| - 3] == 'r';
      assert MessageOf(t) == TooShort;
    } else if m == AvoidRepeats {
      assert |t| == 45;
      assert t[|t| - 3] == '1';
      assert MessageOf(t) == AvoidRepeats;
    } else {
      assert |t| == 45;
      assert t[|t| - 3] == 'f';
      assert MessageOf(t) == AvoidKeyboard;
    }
  }

  /** The texts longer than 45 characters. */
  lemma LongTextsInvertible(m: Message)
    requires m == AvoidCommon || m == GreatPassword
    ensures MessageOf(MessageText(m)) == m
  {
    var t := MessageText(m);
    if m == AvoidCommon {
      assert |t| == 61;
      assert MessageOf(t) == AvoidCommon;
    } else {
      assert |t| == 85;
      assert MessageOf(t) == GreatPassword;
    }
  }

  /** Different messages have different texts, so the messages stand for the strings faithfully. */
  lemma MessageTextInjective(m: Message, m': Message)
    ensures MessageText(m) == MessageText(m') <==> m == m'
  {
    if MessageText(m) == MessageText(m') {
      MessageOfText(m);
      MessageOfText(m');
    }
  }

  /** Rendering a feedback list loses nothing. */
  lemma RenderedInjective(a: seq<Message>, b: seq<Message>)
    ensures Rendered(a) == Rendered(b) <==> a == b
  {
    if Rendered(a) == Rendered(b) {
      forall i | 0 <= i < |a| ensures a[i] == b[i] {
        assert Rendered(a)[i] == Rendered(b)[i];
        MessageTextInjective(a[i], b[i]);
      }
    }
  }

  /** `StrengthResult`; its feedback is kept as messages, whose text is `Rendered`. */
  datatype StrengthResult = StrengthResult(score: int, strengthLabel: string, entropyBits: real, feedback: seq<Message>)

  const CommonPenalty := 25
  const RepeatPenalty := 8
  const KeyboardPenalty := 6

  /** What the scorer returns for the empty password, before any other check runs. */
  const EmptyResult := StrengthResult(0, "Very Weak", 0.0, [EmptyPassword])

  /** Points for length: 5 below 8, 20 below 12, 32 below 16, 40 from 16 on. */
  function LengthPoints(n: nat): int {
    if n < 8 then 5 else if n < 12 then 20 else if n < 16 then 32 else 40
  }

  /** The length line of the feedback, if any. */
  function LengthAdvice(n: nat): seq<Message> {
    if n < 8 then [TooShort] else if n < 12 then [DecentLength] else []
  }

  /** `min(20, len(used_sets) * 5)`. */
  function VarietyPoints(used: seq<string>): int {
    IntMin(20, |used| * 5)
  }

  /** `lines.append(line)` when `cond` holds. */
  function AppendIf(lines: seq<Message>, cond: bool, line: Message): seq<Message> {
    if cond then lines + [line] else lines
  }

  /** `int(min(25, (entropy_bits / 80.0) * 25))`. */
  function EntropyPoints(e: real): int {
    Trunc(RealMin(25.0, e / 80.0 * 25.0))
  }

  /** The total of the three fixed penalties that apply. */
  function PenaltyPoints(pw: string): int {
    (if LooksLikeCommonPassword(pw) then CommonPenalty else 0)
    + (if HasRepeatedRuns(pw) then RepeatPenalty else 0)
    + (if HasKeyboardPattern(pw, 4) then KeyboardPenalty else 0)
  }

  /** The score before penalties. */
  function BaseScore(pw: string, e: real): int {
    LengthPoints(|pw|) + VarietyPoints(UsedNames(pw)) + EntropyPoints(e)
  }

  /** `max(0, min(100, score))` after the penalties. */
  function FinalScore(pw: string, e: real): int {
    IntMax(0, IntMin(100, BaseScore(pw, e) - PenaltyPoints(pw)))
  }

  /** The label the chain of `if`s leaves behind: each test overwrites the
      previous one, so only the last `if`/`else` decides. */
  function Label(score: int): string {
    if score < 80 then "Strong" else "Very Strong"
  }

  /** The five bins the chain's thresholds describe, read as the first
      threshold the score falls under: a reference for what the chain loses. */
  function TierLabel(score: int): string {
    if score < 20 then "Very Weak"
    else if score < 40 then "Weak"
    else if score < 60 then "fair"
    else if score < 80 then "Strong"
    else "Very Strong"
  }

  /** Step 3's lines: one "add ..." line for each class name missing from `used`, in the fixed order. */
  function ClassLines(lines: seq<Message>, used: seq<string>): seq<Message> {
    var lines := AppendIf(lines, "lowercase" !in used, AddLowercase);
    var lines := AppendIf(lines, "uppercase" !in used, AddUppercase);
    var lines := AppendIf(lines, "digits" !in used, AddDigits);
    AppendIf(lines, "symbols" !in used, AddSymbols)
  }

  /** Step 5's lines: one line per pattern found, in the order the checks run. */
  function PenaltyLines(lines: seq<Message>, common: bool, repeats: bool, keyboard: bool): seq<Message> {
    var lines := AppendIf(lines, common, AvoidCommon);
    var lines := AppendIf(lines, repeats, AvoidRepeats);
    AppendIf(lines, keyboard, AvoidKeyboard)
  }

  /** The advice lines, before the closing congratulation. */
  function Advice(pw: string): seq<Message> {
    PenaltyLines(ClassLines(LengthAdvice(|pw|), UsedNames(pw)),
                 LooksLikeCommonPassword(pw), HasRepeatedRuns(pw), HasKeyboardPattern(pw, 4))
  }

  /** The feedback list: the advice, or the congratulation alone when there is
      no advice and the score is at least 80. */
  function Feedback(pw: string, e: real): seq<Message> {
    if Advice(pw) == [] && FinalScore(pw, e) >= 80 then [GreatPassword] else Advice(pw)
  }

  /** The conservative entropy number: the smaller of the two estimates. */
  function ConservativeEntropy(pw: string, log2: real -> real): (e: real)
    ensures e <= ShannonEntropy(pw, log2) && e <= EstimatedSearchSpaceEntropyBits(pw, log2)
    ensures e == ShannonEntropy(pw, log2) || e == EstimatedSearchSpaceEntropyBits(pw, log2)
  {
    RealMin(ShannonEntropy(pw, log2), EstimatedSearchSpaceEntropyBits(pw, log2))
  }

  /** The whole result for a password whose conservative entropy estimate is `e`. */
  function Evaluate(pw: string, e: real): StrengthResult {
    if pw == [] then EmptyResult
    else StrengthResult(FinalScore(pw, e), Label(FinalScore(pw, e)), e, Feedback(pw, e))
  }

  /** Step 2 of `score_password`: the length tier and its feedback line. */
  method ScoreLength(length: nat) returns (points: int, lines: seq<Message>)
    ensures points == LengthPoints(length)
    ensures lines == LengthAdvice(length)
    ensures 5 <= points <= 40
  {
    points := 0;
    lines := [];
    if length < 8 {
      points := points + 5;
      lines := lines + [TooShort];
    } else if length < 12 {
      points := points + 20;
      lines := lines + [DecentLength];
    } else if length < 16 {
      points := points + 32;
    } else {
      points := points + 40;
    }
  }

  /** Step 3: five points per class present, at most 20, and a line for each class missing. */
  method ScoreVariety(pw: string, lines: seq<Message>) returns (points: int, lines': seq<Message>)
    ensures points == VarietyPoints(UsedNames(pw))
    ensures lines' == ClassLines(lines, UsedNames(pw))
    ensures 0 <= points <= 20
  {
    var charsetSize, usedSets := DetectCharsets(pw);
    UsedNamesMatchPresence(pw, Lowercase);
    points := IntMin(20, |usedSets| * 5);
    lines' := lines;
    if "lowercase" !in usedSets {
      lines' := lines' + [AddLowercase];
    }
    if "uppercase" !in usedSets {
      lines' := lines' + [AddUppercase];
    }
    if "digits" !in usedSets {
      lines' := lines' + [AddDigits];
    }
    if "symbols" !in usedSets {
      lines' := lines' + [AddSymbols];
    }
  }

  /** Step 5: the fixed penalties 25, 8 and 6 and their lines. */
  method Penalize(pw: string, lines: seq<Message>) returns (penalties: int, lines': seq<Message>)
    ensures penalties == PenaltyPoints(pw)
    ensures lines' == PenaltyLines(lines, LooksLikeCommonPassword(pw), HasRepeatedRuns(pw), HasKeyboardPattern(pw, 4))
    ensures 0 <= penalties <= 39
  {
    penalties := 0;
    lines' := lines;
    if LooksLikeCommonPassword(pw) {
      penalties := penalties + 25;
      lines' := lines' + [AvoidCommon];
    }
    if HasRepeatedRuns(pw) {
      penalties := penalties + 8;
      lines' := lines' + [AvoidRepeats];
    }
    if HasKeyboardPattern(pw, 4) {
      penalties := penalties + 6;
      lines' := lines' + [AvoidKeyboard];
    }
  }

  /** Step 6, as written: every `if` runs and overwrites the label, so the
      lower tiers are always replaced by "Strong" or "Very Strong". */
  method LabelChain(score: int) returns (label': string)
    ensures label' == Label(score)
    ensures label' == "Very Strong" <==> score >= 80
    ensures label' != "Very Weak" && label' != "Weak" && label' != "fair"
  {
    label' := "";
    if score < 20 {
      label' := "Very Weak";
    }
    if score < 40 {
      label' := "Weak";
    }
    if score < 60 {
      label' := "fair";
    }
    if score < 80 {
      label' := "Strong";
    } else {
      label' := "Very Strong";
    }
  }

  /** `score_password`: the two entropy estimates and their minimum, then the
      steps above in the source's order, the clamp, the label and the closing
      congratulation. `log2` stands for `math.log2`. */
  method ScorePassword(pw: string, log2: real -> real) returns (r: StrengthResult)
    ensures pw == [] ==> r == EmptyResult
    ensures r == Evaluate(pw, ConservativeEntropy(pw, log2))
    ensures pw != [] ==> 0 <= r.score <= 100
    ensures Log2Sign(log2) ==> r.entropyBits >= 0.0
  {
    if pw == [] {
      return EmptyResult;
    }
    var shannonBits := ShannonEntropyBits(pw, log2);
    var spaceBits := EstimatedSearchSpaceEntropyBits(pw, log2);
    var entropyBits := RealMin(shannonBits, spaceBits);
    assert entropyBits == ConservativeEntropy(pw, log2);

    var score, feedback := ScoreLength(|pw|);
    var variety, feedback' := ScoreVariety(pw, feedback);
    score := score + variety;
    score := score + Trunc(RealMin(25.0, entropyBits / 80.0 * 25.0));
    var penalties, advice := Penalize(pw, feedback');
    score := score - penalties;
    score := IntMax(0, IntMin(100, score));
    assert score == FinalScore(pw, entropyBits);
    var labelText := LabelChain(score);
    assert advice == Advice(pw);
    if advice == [] && score >= 80 {
      advice := advice + [GreatPassword];
    }
    assert advice == Feedback(pw, entropyBits);
    r := StrengthResult(score, labelText, entropyBits, advice);
  }

  /** The chain as written agrees with the five bins exactly from 60 on: every
      score below 60 gets "Strong" instead of "fair", "Weak" or "Very Weak". */
  lemma LabelVersusTiers(score: int)
    ensures Label(score) == TierLabel(score) <==> score >= 60
    ensures score < 60 ==> Label(score) == "Strong"
  {
    if score < 60 {
      assert |TierLabel(score)| != |"Strong"|;
    }
  }

  /** A line is in `AppendIf(lines, cond, line)` exactly when it was already
      there or it is the line appended. */
  lemma AppendIfMember(lines: seq<Message>, cond: bool, line: Message, m: Message)
    ensures m in AppendIf(lines, cond, line) <==> m in lines || (cond && m == line)
  {
  }

  /** The entropy contribution never exceeds 25, is never negative for a
      non-negative estimate, and reaches 25 exactly from 80 bits on. */
  lemma EntropyPointsBounds(e: real)
    ensures EntropyPoints(e) <= 25
    ensures e >= 0.0 ==> EntropyPoints(e) >= 0
    ensures EntropyPoints(e) == 25 <==> e >= 80.0
  {
    var x := e / 80.0 * 25.0;
    if e >= 80.0 {
      assert x >= 25.0;
      assert RealMin(25.0, x) == 25.0;
    } else {
      assert x < 25.0;
      assert RealMin(25.0, x) == x;
    }
  }

  /** More entropy never earns fewer points. */
  lemma EntropyPointsMonotone(e1: real, e2: real)
    requires e1 <= e2
    ensures EntropyPoints(e1) <= EntropyPoints(e2)
  {
    assert e1 / 80.0 * 25.0 <= e2 / 80.0 * 25.0;
    TruncMonotone(RealMin(25.0, e1 / 80.0 * 25.0), RealMin(25.0, e2 / 80.0 * 25.0));
  }

  /** Before penalties a password earns at most 40 + 20 + 25 = 85 points, and,
      when the estimate is not negative, at least 5 for length and 5 for its one class. */
  lemma BaseScoreBounds(pw: string, e: real)
    requires pw != []
    ensures BaseScore(pw, e) <= 85
    ensures e >= 0.0 ==> BaseScore(pw, e) >= 10
  {
    EntropyPointsBounds(e);
    UsedNamesMatchPresence(pw, ClassOf(pw[0]));
    assert Present(pw, ClassOf(pw[0]));
  }

  /** The clamp to 100 never acts: the final score is the base score minus the
      penalties, raised to 0 when negative, and never above 85. */
  lemma FinalScoreBounds(pw: string, e: real)
    requires pw != []
    ensures FinalScore(pw, e) == IntMax(0, BaseScore(pw, e) - PenaltyPoints(pw))
    ensures 0 <= FinalScore(pw, e) <= 85
  {
    BaseScoreBounds(pw, e);
    assert PenaltyPoints(pw) >= 0;
  }

  /** What a score of 80 or more takes: 16 characters or more, three classes
      or more, no penalty at all (85 - 6 is 79), and an estimate of at least
      64 bits (20 entropy points), since length and variety give at most 60. */
  lemma HighScoreNeeds(pw: string, e: real)
    requires pw != [] && FinalScore(pw, e) >= 80
    ensures |pw| >= 16
    ensures |UsedNames(pw)| >= 3
    ensures PenaltyPoints(pw) == 0
    ensures e >= 64.0
  {
    FinalScoreBounds(pw, e);
    EntropyPointsBounds(e);
    UsedNamesMatchPresence(pw, Lowercase);
    assert EntropyPoints(e) >= 20;
    assert 20.0 <= RealMin(25.0, e / 80.0 * 25.0);
  }

  /** The label as written: it is "Very Strong" from 80 on and "Strong" below,
      so "Very Weak", "Weak" and "fair" never come out for a non-empty password. */
  lemma LabelAsWritten(pw: string, e: real)
    requires pw != []
    ensures Evaluate(pw, e).strengthLabel == "Very Strong" <==> Evaluate(pw, e).score >= 80
    ensures Evaluate(pw, e).strengthLabel == "Strong" <==> Evaluate(pw, e).score < 80
    ensures Evaluate(pw, e).strengthLabel !in ["Very Weak", "Weak", "fair"]
  {
  }

  /** Every advice line the scorer can emit, in the order it appends them. */
  const AdviceOrder: seq<Message> := [
    TooShort, DecentLength,
    AddLowercase, AddUppercase, AddDigits, AddSymbols,
    AvoidCommon, AvoidRepeats, AvoidKeyboard
  ]

  /** The first `n` lines of `AdviceOrder`, keeping the `k`-th exactly when `applies[k]` holds. */
  function Selected(applies: seq<bool>, n: nat): seq<Message>
    requires n <= |applies| && n <= |AdviceOrder|
  {
    if n == 0 then [] else AppendIf(Selected(applies, n - 1), applies[n - 1], AdviceOrder[n - 1])
  }

  /** A line is among the first `n` selected exactly when it is one of them that applies. */
  lemma {:induction false} SelectedMember(applies: seq<bool>, n: nat, m: Message)
    requires n <= |applies| && n <= |AdviceOrder|
    ensures m in Selected(applies, n) <==> exists k :: 0 <= k < n && applies[k] && AdviceOrder[k] == m
  {
    if n > 0 {
      SelectedMember(applies, n - 1, m);
      AppendIfMember(Selected(applies, n - 1), applies[n - 1], AdviceOrder[n - 1], m);
    }
  }

  /** Filtering the whole list: each line is kept exactly when it applies, the
      congratulation is never among them, and nothing is kept only when nothing applies. */
  lemma SelectedLines(applies: seq<bool>)
    requires |applies| == |AdviceOrder|
    ensures forall k :: 0 <= k < |AdviceOrder| ==>
      (AdviceOrder[k] in Selected(applies, |AdviceOrder|) <==> applies[k])
    ensures GreatPassword !in Selected(applies, |AdviceOrder|)
    ensures Selected(applies, |AdviceOrder|) == [] <==> forall k :: 0 <= k < |AdviceOrder| ==> !applies[k]
  {
    var n := |AdviceOrder|;
    forall k | 0 <= k < n ensures AdviceOrder[k] in Selected(applies, n) <==> applies[k] {
      SelectedMember(applies, n, AdviceOrder[k]);
    }
    SelectedMember(applies, n, GreatPassword);
    if Selected(applies, n) != [] {
      SelectedMember(applies, n, Selected(applies, n)[0]);
    }
  }

  /** When each advice line of `AdviceOrder` applies to `pw`, stated from the
      password itself: its length, the classes present and the detectors. */
  function Conditions(pw: string): (c: seq<bool>)
    ensures |c| == |AdviceOrder|
  {
    [ |pw| < 8, 8 <= |pw| < 12,
      !Present(pw, Lowercase), !Present(pw, Uppercase), !Present(pw, Digits), !Present(pw, Symbols),
      LooksLikeCommonPassword(pw), HasRepeatedRuns(pw), HasKeyboardPattern(pw, 4) ]
  }

  lemma LengthLinesSelected(c: seq<bool>, n: nat)
    requires |c| == |AdviceOrder| && c[0] == (n < 8) && c[1] == (8 <= n < 12)
    ensures Selected(c, 2) == LengthAdvice(n)
  {
    assert Selected(c, 1) == AppendIf([], n < 8, TooShort);
  }

  lemma ClassLinesSelected(c: seq<bool>, used: seq<string>)
    requires |c| == |AdviceOrder|
    requires c[2] == ("lowercase" !in used) && c[3] == ("uppercase" !in used)
    requires c[4] == ("digits" !in used) && c[5] == ("symbols" !in used)
    ensures ClassLines(Selected(c, 2), used) == Selected(c, 6)
  {
    assert Selected(c, 3) == AppendIf(Selected(c, 2), c[2], AddLowercase);
    assert Selected(c, 4) == AppendIf(Selected(c, 3), c[3], AddUppercase);
    assert Selected(c, 5) == AppendIf(Selected(c, 4), c[4], AddDigits);
  }

  lemma PenaltyLinesSelected(c: seq<bool>)
    requires |c| == |AdviceOrder|
    ensures PenaltyLines(Selected(c, 6), c[6], c[7], c[8]) == Selected(c, 9)
  {
    assert Selected(c, 7) == AppendIf(Selected(c, 6), c[6], AvoidCommon);
    assert Selected(c, 8) == AppendIf(Selected(c, 7), c[7], AvoidRepeats);
  }

  /** The three steps together, for any length, class names and detector verdicts. */
  lemma StepsSelected(c: seq<bool>, n: nat, used: seq<string>, common: bool, repeats: bool, keyboard: bool)
    requires |c| == |AdviceOrder| && c[0] == (n < 8) && c[1] == (8 <= n < 12)
    requires c[2] == ("lowercase" !in used) && c[3] == ("uppercase" !in used)
    requires c[4] == ("digits" !in used) && c[5] == ("symbols" !in used)
    requires c[6] == common && c[7] == repeats && c[8] == keyboard
    ensures PenaltyLines(ClassLines(LengthAdvice(n), used), common, repeats, keyboard) == Selected(c, |AdviceOrder|)
  {
    LengthLinesSelected(c, n);
    ClassLinesSelected(c, used);
    PenaltyLinesSelected(c);
  }

  /** The advice is the fixed list of lines, filtered by which of them apply:
      a length line only below 12 characters, an "add ..." line exactly for
      each class absent, a penalty line exactly for each detector that fires. */
  lemma AdviceInFixedOrder(pw: string)
    ensures Advice(pw) == Selected(Conditions(pw), |AdviceOrder|)
  {
    ClassConditions(pw);
    StepsSelected(Conditions(pw), |pw|, UsedNames(pw),
                  LooksLikeCommonPassword(pw), HasRepeatedRuns(pw), HasKeyboardPattern(pw, 4));
  }

  /** The class conditions, stated on the names `detect_charsets` returns. */
  lemma ClassConditions(pw: string)
    ensures Conditions(pw)[2] == ("lowercase" !in UsedNames(pw))
    ensures Conditions(pw)[3] == ("uppercase" !in UsedNames(pw))
    ensures Conditions(pw)[4] == ("digits" !in UsedNames(pw))
    ensures Conditions(pw)[5] == ("symbols" !in UsedNames(pw))
  {
    UsedNamesMatchPresence(pw, Lowercase);
    UsedNamesMatchPresence(pw, Uppercase);
    UsedNamesMatchPresence(pw, Digits);
    UsedNamesMatchPresence(pw, Symbols);
  }

  /** Each advice line appears exactly when its condition holds. */
  lemma AdviceLineIff(pw: string, k: nat)
    requires k < |AdviceOrder|
    ensures AdviceOrder[k] in Advice(pw) <==> Conditions(pw)[k]
  {
    AdviceInFixedOrder(pw);
    SelectedLines(Conditions(pw));
  }

  /** No advice at all means: at least 12 characters, all four classes, no penalty. */
  lemma NoAdviceIff(pw: string)
    ensures Advice(pw) == [] <==>
      && |pw| >= 12
      && Present(pw, Lowercase) && Present(pw, Uppercase) && Present(pw, Digits) && Present(pw, Symbols)
      && PenaltyPoints(pw) == 0
  {
    var c := Conditions(pw);
    AdviceInFixedOrder(pw);
    SelectedLines(c);
    assert (forall k :: 0 <= k < |AdviceOrder| ==> !c[k]) <==>
      !c[0] && !c[1] && !c[2] && !c[3] && !c[4] && !c[5] && !c[6] && !c[7] && !c[8];
  }

  /** The congratulation: it is added exactly when there is no other line and
      the score is at least 80; it then stands alone, and the password has at
      least 16 characters, since with 12 to 15 the best is 32 + 20 + 25 = 77. */
  lemma Congratulation(pw: string, e: real)
    requires pw != []
    ensures GreatPassword in Feedback(pw, e) <==> Advice(pw) == [] && FinalScore(pw, e) >= 80
    ensures GreatPassword in Feedback(pw, e) ==> Feedback(pw, e) == [GreatPassword] && |pw| >= 16
    ensures GreatPassword !in Feedback(pw, e) ==> Feedback(pw, e) == Advice(pw)
  {
    AdviceInFixedOrder(pw);
    SelectedLines(Conditions(pw));
    if Advice(pw) == [] && FinalScore(pw, e) >= 80 {
      NoAdviceIff(pw);
      EntropyPointsBounds(e);
      UsedNamesMatchPresence(pw, Lowercase);
    }
  }

  /** The points taken off are exactly those of the penalty lines in the feedback. */
  lemma PenaltiesMatchFeedback(pw: string, e: real)
    requires pw != []
    ensures PenaltyPoints(pw) ==
      (if AvoidCommon in Feedback(pw, e) then CommonPenalty else 0)
      + (if AvoidRepeats in Feedback(pw, e) then RepeatPenalty else 0)
      + (if AvoidKeyboard in Feedback(pw, e) then KeyboardPenalty else 0)
  {
    Congratulation(pw, e);
    AdviceLineIff(pw, 6);
    AdviceLineIff(pw, 7);
    AdviceLineIff(pw, 8);
    if GreatPassword in Feedback(pw, e) {
      NoAdviceIff(pw);
    }
  }
}
