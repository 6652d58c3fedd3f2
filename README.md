# Password strength engine, modelled in Dafny

This project models the scoring engine of a small offline password strength
checker, `tests/old_password_strength_script.py`. The engine takes one
password and returns a `StrengthResult` with four fields:

- a score from 0 to 100;
- a label;
- a conservative entropy estimate;
- a list of feedback lines.

To compute these it combines several parts:

- a character-class detector;
- two entropy estimates, Shannon entropy over character frequencies and the size of the search space;
- three pattern detectors: runs of one repeated character, alphabet or digit sequences, and keyboard rows;
- a common-password matcher, which strips, lowercases, drops trailing digits and reverses leetspeak;
- a scoring policy that adds length, variety and entropy points, then subtracts fixed penalties, clamps the score, labels it and assembles the feedback.

Modules follow the parts of the engine:

| module | file | models |
|---|---|---|
| `Numbers` | numbers.dfy | `min`, `max`, and `int()` on floats, which truncates toward zero |
| `Text` | text.dfy | `str.lower`, `str.strip`, the substring test `in`, reversal `[::-1]` (case and whitespace for ASCII only) |
| `Tables` | tables.dfy | `COMMON_PASSWORDS`, `KEYBOARD_PATTERNS`, `SEQUENCES` as written |
| `Charsets` | charsets.dfy | `detect_charsets` |
| `Entropy` | entropy.dfy | `shannon_entropy_bits` (the frequency loop kept as loops) and `estimated_search_space_entropy_bits` |
| `Patterns` | patterns.dfy | `has_repeated_runs`, `has_sequence` (its nested loops kept), `has_keyboard_pattern` |
| `Common` | common.dfy | `looks_like_common_password` |
| `Scoring` | scoring.dfy | `StrengthResult`, `score_password` (steps kept as methods) and its feedback texts |
| `Scenarios` | scenarios.dfy | the passwords of `tests/test_checker.py` and a few more, worked through the model |

`score_password` is modelled twice, on purpose:

- `Scoring.ScorePassword` is a method that follows the source step by step. It keeps a mutable score and threads the feedback list through the step methods.
- `Scoring.Evaluate` is the function that it is proved equal to.

The lemmas about the policy are stated on `Evaluate`, `FinalScore` and `Feedback`.

The feedback lines are the constructors of `Scoring.Message`. `Scoring.MessageText` gives the exact string of each. `Scoring.RenderedInjective` shows that nothing is lost by working with the constructors.

The label chain is modelled as written. Each `if` overwrites the label and the last one has an `else`, so only "Strong" (below 80) and "Very Strong" (80 and up) can come out for a non-empty password. `Scoring.TierLabel` is the five-bin reading of the same thresholds. `Scoring.LabelVersusTiers` proves that the two agree exactly from 60 on.

Where the code and its comments disagree, the model follows the code:

- the penalties total up to 39, not the "up to -35" of the comment;
- the third tier is spelt "fair";
- the lowercase hint starts with a lower-case "add".

## Model

| member | source | states |
|---|---|---|
| Numbers.IntMin | tests/old_password_strength_script.py:217 | `min` on integers: at most both arguments and equal to one of them |
| Numbers.IntMax | tests/old_password_strength_script.py:253 | `max` on integers: at least both arguments and equal to one of them |
| Numbers.RealMin | tests/old_password_strength_script.py:195 | `min` on floats: at most both arguments and equal to one of them |
| Numbers.Trunc | tests/old_password_strength_script.py:231 | `int()` on a float truncates toward zero: the floor for a non-negative argument, the ceiling for a negative one |
| Numbers.TruncMonotone | tests/old_password_strength_script.py:231 | `int()` never decreases as its argument grows |
| Text.Lower | tests/old_password_strength_script.py:151 | `str.lower` on ASCII: each of A-Z becomes its lower-case letter, every other character is kept |
| Text.Strip | tests/old_password_strength_script.py:150 | `str.strip`: drops leading, then trailing, ASCII whitespace (tab to carriage return, 0x1C-0x1F, space) |
| Text.IsSubstring | tests/old_password_strength_script.py:125 | `sub in s`: `sub` occurs at some position of `s` |
| Text.Reverse | tests/old_password_strength_script.py:128 | `s[::-1]`: the characters of `s` in reverse order |
| Text.StripIsTrim | tests/old_password_strength_script.py:150 | `strip()` returns a slice of the input that neither starts nor ends with whitespace, and everything cut off is whitespace |
| Text.StripIdempotent | tests/old_password_strength_script.py:150 | stripping twice is stripping once |
| Text.LowerIdempotent | tests/old_password_strength_script.py:151 | lowering twice is lowering once |
| Text.StripLower | tests/old_password_strength_script.py:150-151 | lowering commutes with stripping |
| Text.LowerConcat | tests/old_password_strength_script.py:118 | lowering distributes over concatenation |
| Text.SubstringExtends | tests/old_password_strength_script.py:125 | a substring stays a substring when text is added on either side |
| Tables.CommonPasswords | tests/old_password_strength_script.py:22-25 | the twelve common passwords, as listed |
| Tables.KeyboardPatterns | tests/old_password_strength_script.py:27-30 | the eight keyboard patterns, in the listed order |
| Tables.Sequences | tests/old_password_strength_script.py:32-36 | the lower-case alphabet, the upper-case alphabet and the digits, in that order |
| Charsets.ClassOf | tests/old_password_strength_script.py:48-59 | every character falls in exactly one of `[a-z]`, `[A-Z]`, `[0-9]` and `[^a-zA-Z0-9]` |
| Charsets.Present | tests/old_password_strength_script.py:48-59 | `re.search` of a class succeeds: some character of the password is in that class |
| Charsets.UsedClasses | tests/old_password_strength_script.py:46-59 | the classes present, tested in the order lowercase, uppercase, digits, symbols |
| Charsets.UsedNames | tests/old_password_strength_script.py:46-59 | `used`: the names "lowercase", "uppercase", "digits", "symbols" of the classes present, in that order |
| Charsets.CharsetSize | tests/old_password_strength_script.py:44-59 | `sets_size`: 26, 26, 10 and 33 added for each class present |
| Charsets.NameInjective | tests/old_password_strength_script.py:50-59 | the four class names differ |
| Charsets.UsedClassesInOrder | tests/old_password_strength_script.py:46-59 | the classes reported are exactly those present, each once, in the fixed lowercase-uppercase-digits-symbols order |
| Charsets.UsedNamesMatchPresence | tests/old_password_strength_script.py:48-59 | a class name is in `used` exactly when the password has a character of that class; at most four names |
| Charsets.CharsetSizeByClass | tests/old_password_strength_script.py:44-59 | the alphabet size is 26 + 26 + 10 + 33, counting each class present |
| Charsets.CharsetSizeBounds | tests/old_password_strength_script.py:44-59 | the alphabet size is at most 95 and is 0 exactly for the empty password |
| Charsets.SearchClass | tests/old_password_strength_script.py:48 | `re.search` for a class finds a match exactly when a character of that class is present |
| Charsets.DetectCharsets | tests/old_password_strength_script.py:39-60 | returns the alphabet size and the names of the classes present, in order |
| Entropy.CountBounds | tests/old_password_strength_script.py:76 | an occurrence count is at most the length and is positive exactly for characters of the password |
| Entropy.Count | tests/old_password_strength_script.py:75-76 | `freq[ch]` after the loop: the number of occurrences of `ch` in the password |
| Entropy.Distinct | tests/old_password_strength_script.py:74-76 | the keys of `freq` in dictionary order: the distinct characters in order of first occurrence |
| Entropy.EntropySum | tests/old_password_strength_script.py:79-83 | `entropy` after the first `n` values: `-p * log2(p)` subtracted for each key in order, `p` being count / length |
| Entropy.ShannonEntropy | tests/old_password_strength_script.py:63-86 | the value returned: 0.0 for the empty password, otherwise the entropy over all keys times the length |
| Entropy.DistinctMembers | tests/old_password_strength_script.py:74-76 | the table's keys are the password's characters, each once |
| Entropy.FrequencyTable | tests/old_password_strength_script.py:74-76 | the table maps exactly the password's characters to their occurrence counts; its keys come in first-occurrence order; the counts add up to the length |
| Entropy.TermNonPositive | tests/old_password_strength_script.py:81-83 | each `p * log2(p)` with `0 < p <= 1` is at most 0 |
| Entropy.EntropySumNonNegative | tests/old_password_strength_script.py:80-83 | the running entropy never goes below 0 |
| Entropy.ShannonNonNegative | tests/old_password_strength_script.py:63-86 | the Shannon estimate is never negative |
| Entropy.ConstantShannon | tests/old_password_strength_script.py:63-86 | one character repeated has a Shannon estimate of 0 bits (given `log2(1) = 0`) |
| Entropy.SumTerms | tests/old_password_strength_script.py:74-83 | the loop over the table's values sums `-p * log2(p)` over the distinct characters, in first-occurrence order |
| Entropy.ShannonEntropyBits | tests/old_password_strength_script.py:63-86 | 0.0 for the empty password, otherwise that sum times the length; never negative |
| Entropy.EstimatedSearchSpaceEntropyBits | tests/old_password_strength_script.py:89-98 | 0 when no class is detected, which is exactly the empty password; otherwise length times `log2` of the alphabet size, never negative |
| Patterns.RepeatedRunsIff | tests/old_password_strength_script.py:102-108 | `(.)\1{3,}` is found exactly when four copies of one character other than a line feed occur in a row |
| Patterns.RunAt | tests/old_password_strength_script.py:107-108 | `(.)\1{3,}` matches at position `i`: a character other than a line feed followed by three copies of itself |
| Patterns.HasRepeatedRuns | tests/old_password_strength_script.py:102-108 | `re.search` finds the run pattern at some position |
| Patterns.RepeatedRunsExtend | tests/old_password_strength_script.py:102-108 | a repeated run is still found when text is added on either side |
| Patterns.RepeatedRunsExample | tests/old_password_strength_script.py:104 | `aaaa1234` has a repeated run |
| Patterns.NoRepeatedRunsExample | tests/old_password_strength_script.py:102-108 | `aaa1234b` has no repeated run: three copies are not enough |
| Patterns.ScanWindows | tests/old_password_strength_script.py:123-133 | one inner loop of `has_sequence` returns true exactly when some window of the given length occurs in the lowered password |
| Patterns.HasSequenceSpec | tests/old_password_strength_script.py:113-135 | some window of length `seq_len` of a lowered canonical sequence, or of its reverse, occurs in the lowered password |
| Patterns.HasSequence | tests/old_password_strength_script.py:113-135 | true exactly when a window of some lowered canonical sequence, forwards or reversed, occurs in the lowered password |
| Patterns.SequenceExtends | tests/old_password_strength_script.py:113-135 | a sequence is still found when text is added on either side |
| Patterns.SequencesLowered | tests/old_password_strength_script.py:32-36 | lowering the canonical sequences turns the upper-case alphabet into the lower-case one and leaves the others unchanged |
| Patterns.SequenceSpecByTable | tests/old_password_strength_script.py:113-135 | `has_sequence` holds exactly when a window of the alphabet or the digits, forwards or backwards, occurs |
| Patterns.SequenceExample | tests/old_password_strength_script.py:115 | `abcd1234` contains a sequence |
| Patterns.KeyboardPatternDefault | tests/old_password_strength_script.py:138-143 | with `min_len` 4 every listed pattern qualifies, so the detector holds exactly when a listed pattern occurs in the lowered password |
| Patterns.HasKeyboardPattern | tests/old_password_strength_script.py:138-143 | `any` over the patterns: some non-empty listed pattern of at least `min_len` characters occurs in the lowered password |
| Patterns.KeyboardPatternExtends | tests/old_password_strength_script.py:138-143 | a keyboard pattern is still found when text is added on either side |
| Patterns.KeyboardPatternExample | tests/old_password_strength_script.py:140 | `Qwerty123` has a keyboard pattern whatever its case |
| Patterns.KeyboardPrefixExample | tests/old_password_strength_script.py:138-143 | `qwertyxyz` has the keyboard pattern `qwerty` |
| Common.DropTrailingDigitsAt | tests/old_password_strength_script.py:161 | removing trailing digits stops at the last non-digit |
| Common.LettersThenDigits | tests/old_password_strength_script.py:160 | `re.match(r"^[a-zA-Z]+[0-9]{1,4}$", raw)` succeeds: one or more ASCII letters, then one to four digits, to the end |
| Common.DropTrailingDigits | tests/old_password_strength_script.py:161 | `re.sub(r"[0-9]+$", "", s)`: the block of digits at the end is removed |
| Common.LeetChar | tests/old_password_strength_script.py:168 | the translation table: `@` to `a`, `0` to `o`, `1` and `!` to `i`, `$` to `s`, `3` to `e`, others kept |
| Common.Leet | tests/old_password_strength_script.py:169 | `lower.translate(leet_map)`: the table applied to each character |
| Common.LooksLikeCommonPassword | tests/old_password_strength_script.py:146-174 | on the stripped password: its lowered form is listed, or it is letters then digits and its lowered letters are listed, or its lowered leetspeak translation is listed |
| Common.DigitRuleBase | tests/old_password_strength_script.py:160-161 | when the stripped password is letters then one to four digits, the base looked up is exactly its letters |
| Common.LooksLikeCommonIff | tests/old_password_strength_script.py:146-174 | the matcher holds exactly when the stripped, lowered password, or its letters before a block of one to four digits, or its leetspeak translation, is on the list |
| Common.LooksLikeCommonIgnoresStrip | tests/old_password_strength_script.py:150 | surrounding whitespace never changes the verdict |
| Common.LettersThenDigitsLower | tests/old_password_strength_script.py:160 | lowering keeps the letters-then-digits shape, split at the same place |
| Common.DropTrailingDigitsLower | tests/old_password_strength_script.py:161 | lowering commutes with removing trailing digits |
| Common.LooksLikeCommonIgnoresCase | tests/old_password_strength_script.py:146-174 | changing the case of letters never changes the verdict |
| Common.ExactExample | tests/old_password_strength_script.py:153 | `password` is an exact match |
| Common.TrailingDigitsExample | tests/old_password_strength_script.py:158-163 | `Password123` matches by the trailing-digit rule |
| Common.LeetExample | tests/old_password_strength_script.py:167-171 | `p@ssw0rd` matches by the leetspeak rule |
| Scoring.MessageOfText | tests/old_password_strength_script.py:184-269 | each feedback text determines its line |
| Scoring.MessageText | tests/old_password_strength_script.py:184-269 | the exact text of each feedback line, spelling and punctuation as in the source |
| Scoring.StrengthResult | tests/old_password_strength_script.py:9-14 | the result record: score, label, entropy estimate and feedback list |
| Scoring.EmptyResult | tests/old_password_strength_script.py:183-185 | the early result for the empty password: score 0, "Very Weak", 0.0, "Password is empty" |
| Scoring.MessageTextInjective | tests/old_password_strength_script.py:184-269 | two feedback lines have the same text exactly when they are the same line |
| Scoring.RenderedInjective | tests/old_password_strength_script.py:184-269 | two feedback lists render to the same strings exactly when they are equal |
| Scoring.ConservativeEntropy | tests/old_password_strength_script.py:188-195 | the entropy used is at most both estimates and equal to one of them |
| Scoring.EntropyPoints | tests/old_password_strength_script.py:231 | `int(min(25, (entropy_bits / 80.0) * 25))` |
| Scoring.PenaltyPoints | tests/old_password_strength_script.py:236-250 | 25 if the password looks common, plus 8 for a repeated run, plus 6 for a keyboard pattern |
| Scoring.FinalScore | tests/old_password_strength_script.py:199-253 | length points plus variety points plus entropy points, minus the penalties, clamped to 0..100 |
| Scoring.Label | tests/old_password_strength_script.py:256-265 | the label the overwriting chain leaves: "Strong" below 80, "Very Strong" from 80 |
| Scoring.TierLabel | tests/old_password_strength_script.py:256-265 | the five thresholds read as exclusive bins: "Very Weak", "Weak", "fair", "Strong", "Very Strong" |
| Scoring.Advice | tests/old_password_strength_script.py:199-250 | the feedback before the closing line: the length line, then the "add" lines, then the penalty lines, in the order they are appended |
| Scoring.Feedback | tests/old_password_strength_script.py:268-269 | the advice, or the congratulation alone when there is no advice and the score is at least 80 |
| Scoring.Evaluate | tests/old_password_strength_script.py:178-272 | the whole result: the empty result for `""`, otherwise score, label, estimate and feedback as above |
| Scoring.ScoreLength | tests/old_password_strength_script.py:203-212 | length points (5, 20, 32 or 40) and the length line, as the tiers say |
| Scoring.ScoreVariety | tests/old_password_strength_script.py:216-226 | five points per class present, at most 20, and one "add ..." line per class missing, in order |
| Scoring.Penalize | tests/old_password_strength_script.py:236-250 | 25, 8 and 6 points for the common, repeat and keyboard detectors, with their lines in that order; 0 to 39 in total |
| Scoring.LabelChain | tests/old_password_strength_script.py:256-265 | the overwriting chain leaves "Very Strong" exactly from 80 on, "Strong" below, and never a lower tier |
| Scoring.ScorePassword | tests/old_password_strength_script.py:178-272 | the empty password gives score 0, "Very Weak", 0.0 and "Password is empty"; otherwise the result is `Evaluate` at the smaller of the two estimates, with the score in 0..100 and a non-negative estimate |
| Scoring.LabelVersusTiers | tests/old_password_strength_script.py:256-265 | the chain as written agrees with the five mutually exclusive bins exactly from 60 on, and says "Strong" below 60 |
| Scoring.LabelAsWritten | tests/old_password_strength_script.py:256-265 | for a non-empty password the label is "Very Strong" exactly from 80 on, "Strong" otherwise, never "Very Weak", "Weak" or "fair" |
| Scoring.EntropyPointsBounds | tests/old_password_strength_script.py:231 | entropy points are at most 25, not negative for a non-negative estimate, and 25 exactly from 80 bits on |
| Scoring.EntropyPointsMonotone | tests/old_password_strength_script.py:231 | more entropy never earns fewer points |
| Scoring.BaseScoreBounds | tests/old_password_strength_script.py:199-231 | before penalties the score is at most 85, and at least 10 when the estimate is not negative |
| Scoring.FinalScoreBounds | tests/old_password_strength_script.py:250-253 | the clamp to 100 never acts: the final score is max(0, base - penalties), at most 85 |
| Scoring.HighScoreNeeds | tests/old_password_strength_script.py:199-253 | a score of 80 or more needs 16+ characters, three classes or more, no penalty, and an estimate of 64 bits or more |
| Scoring.AdviceInFixedOrder | tests/old_password_strength_script.py:199-250 | the advice is the fixed list of nine lines, filtered by their conditions, in the source's order |
| Scoring.AdviceLineIff | tests/old_password_strength_script.py:199-250 | each advice line appears exactly when its condition holds |
| Scoring.NoAdviceIff | tests/old_password_strength_script.py:199-250 | there is no advice exactly when the password has 12+ characters, all four classes and no penalty |
| Scoring.Congratulation | tests/old_password_strength_script.py:268-269 | the closing line is added exactly when there is no advice and the score is at least 80; it then stands alone and the password has 16+ characters; otherwise the feedback is the advice |
| Scoring.PenaltiesMatchFeedback | tests/old_password_strength_script.py:236-250 | the points taken off are exactly those of the penalty lines in the feedback |
| Scenarios.WeakPasswordScore | tests/test_checker.py:7-9 | `hello123` scores at most 55 (below 60) for every estimate, is labelled "Strong", and is told to add upper-case letters and symbols |
| Scenarios.StrongPasswordScore | tests/test_checker.py:11-13 | `T!m3-Wh4l3__G0ld#9472` gets no advice and scores at least 70 once its estimate reaches 32 bits |
| Scenarios.SequenceNotPenalized | tests/old_password_strength_script.py:236-250 | `abcd1234` contains a sequence yet receives no penalty: the scorer never calls `has_sequence` |

## Left out

- The command-line runner (`main` and `src/password_strength/cli.py`) reads and prints. It is I/O and is not modelled.
- `math.log2` is a parameter `log2: real -> real` of every entropy member. The facts need only its sign, stated by `Entropy.Log2Sign`, and `Entropy.ConstantShannon` also needs `log2(1) = 0`. Concrete entropy values are therefore not computed, and the test scenarios take the estimate as a parameter.
- Floating point is modelled by exact reals. Rounding in `count / length`, `p * log2(p)` and `(entropy_bits / 80.0) * 25` is not modelled.
- `str.lower` and `str.strip` are modelled for ASCII only. Python also lowers non-ASCII letters (such as `É`, or the Kelvin sign U+212A) and strips non-ASCII whitespace; the model leaves those characters unchanged. The regular-expression classes `[a-z]`, `[A-Z]`, `[0-9]`, `[^a-zA-Z0-9]` and `.` are code-point tests and are exact for every character.
- Patterns.HasRepeatedRuns: `run_len` is fixed at its default of 4, the only value the scorer uses.
- Patterns.HasSequence: `seq_len` is a natural number. Negative values are not modelled.
- Scoring.ScorePassword: the feedback list holds `Message` constructors. `Scoring.Rendered` turns them into the source's strings.
- Scoring.ScorePassword: the steps of `score_password` are separate methods (`ScoreLength`, `ScoreVariety`, `Penalize`, `LabelChain`) called in the source's order.
- `has_sequence` is modelled and proved, but the scorer never calls it, and the model does not either.
