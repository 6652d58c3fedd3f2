/** `looks_like_common_password`: the denylist test on the stripped, lowercased
    password, on its letters before a short block of trailing digits, and on
    its leetspeak translation. */
module Common {
  import opened Text
  import opened Tables

  /** `^[a-zA-Z]+[0-9]{1,4}$` matches `raw`, split at `k`: one or more letters, then one to four digits. */
  predicate LettersThenDigitsAt(raw: string, k: int) {
    && 1 <= k
    && 1 <= |raw| - k <= 4
    && (forall i :: 0 <= i < k ==> IsLetter(raw[i]))
    && (forall i :: k <= i < |raw| ==> IsDigit(raw[i]))
  }

  /** `re.match(r"^[a-zA-Z]+[0-9]{1,4}$", raw)` succeeds. */
  predicate LettersThenDigits(raw: string) {
    exists k :: 0 <= k <= |raw| && LettersThenDigitsAt(raw, k)
  }

  /** `re.sub(r"[0-9]+$", "", s)`: removes the block of digits at the end. */
  function DropTrailingDigits(s: string): string
    decreases |s|
  {
    if s != [] && IsDigit(s[|s| - 1]) then DropTrailingDigits(s[..|s| - 1]) else s
  }

  /** The translation table `leet_map`. */
  function LeetChar(c: char): char {
    if c == '@' then 'a'
    else if c == '0' then 'o'
    else if c == '1' then 'i'
    else if c == '!' then 'i'
    else if c == '$' then 's'
    else if c == '3' then 'e'
    else c
  }

  /** `s.translate(leet_map)`. */
  function Leet(s: string): string {
    seq(|s|, i requires 0 <= i < |s| => LeetChar(s[i]))
  }

  /** `looks_like_common_password`. */
  predicate LooksLikeCommonPassword(pw: string) {
    var raw := Strip(pw);
    var lower := Lower(raw);
    || lower in CommonPasswords
    || (LettersThenDigits(raw) && Lower(DropTrailingDigits(raw)) in CommonPasswords)
    || Leet(lower) in CommonPasswords
  }

  /** Removing trailing digits stops at the last non-digit. */
  lemma {:induction false} DropTrailingDigitsAt(s: string, k: int)
    requires 0 <= k <= |s|
    requires forall i :: k <= i < |s| ==> IsDigit(s[i])
    requires k == 0 || !IsDigit(s[k - 1])
    ensures DropTrailingDigits(s) == s[..k]
    decreases |s|
  {
    if |s| > k {
      var init := s[..|s| - 1];
      assert init[..k] == s[..k];
      DropTrailingDigitsAt(init, k);
    } else {
      assert s[..k] == s;
    }
  }

  /** The trailing-digit rule in terms of the split: when the stripped
      password is letters followed by one to four digits, the base that is
      looked up is exactly its lowercased letters. */
  lemma DigitRuleBase(raw: string, k: int)
    requires LettersThenDigitsAt(raw, k)
    ensures LettersThenDigits(raw)
    ensures DropTrailingDigits(raw) == raw[..k]
  {
    assert !IsDigit(raw[k - 1]);
    DropTrailingDigitsAt(raw, k);
  }

  /** The whole matcher as three alternatives on the stripped password. */
  lemma LooksLikeCommonIff(pw: string)
    ensures LooksLikeCommonPassword(pw) <==>
      || Lower(Strip(pw)) in CommonPasswords
      || (exists k :: 0 <= k <= |Strip(pw)| && LettersThenDigitsAt(Strip(pw), k)
                      && Lower(Strip(pw)[..k]) in CommonPasswords)
      || Leet(Lower(Strip(pw))) in CommonPasswords
  {
    var raw := Strip(pw);
    if LettersThenDigits(raw) {
      var k :| 0 <= k <= |raw| && LettersThenDigitsAt(raw, k);
      DigitRuleBase(raw, k);
      forall k' | 0 <= k' <= |raw| && LettersThenDigitsAt(raw, k') ensures k' == k {
        DigitRuleBase(raw, k');
      }
    }
  }

  /** Whitespace around the password changes nothing: the matcher strips first. */
  lemma LooksLikeCommonIgnoresStrip(pw: string)
    ensures LooksLikeCommonPassword(Strip(pw)) == LooksLikeCommonPassword(pw)
  {
    StripIdempotent(pw);
  }

  /** Lowering keeps the letters-then-digits shape, split in the same place. */
  lemma LettersThenDigitsLower(raw: string, k: int)
    ensures LettersThenDigitsAt(Lower(raw), k) <==> LettersThenDigitsAt(raw, k)
  {
    forall i | 0 <= i < |raw| ensures Lower(raw)[i] == LowerChar(raw[i]) {
    }
    forall i | 0 <= i < |raw| {
      LowerCharClasses(raw[i]);
    }
  }

  /** Lowering commutes with removing trailing digits. */
  lemma {:induction false} DropTrailingDigitsLower(s: string)
    ensures DropTrailingDigits(Lower(s)) == Lower(DropTrailingDigits(s))
    decreases |s|
  {
    if s != [] {
      assert Lower(s)[|s| - 1] == LowerChar(s[|s| - 1]);
      LowerCharClasses(s[|s| - 1]);
      if IsDigit(s[|s| - 1]) {
        assert Lower(s)[..|s| - 1] == Lower(s[..|s| - 1]);
        DropTrailingDigitsLower(s[..|s| - 1]);
      }
    }
  }

  /** Changing the case of letters never changes the verdict. */
  lemma LooksLikeCommonIgnoresCase(pw: string)
    ensures LooksLikeCommonPassword(Lower(pw)) == LooksLikeCommonPassword(pw)
  {
    var raw := Strip(pw);
    StripLower(pw);
    assert Strip(Lower(pw)) == Lower(raw);
    LowerIdempotent(raw);
    assert LettersThenDigits(Lower(raw)) == LettersThenDigits(raw) by {
      forall k | 0 <= k <= |raw| {
        LettersThenDigitsLower(raw, k);
      }
    }
    assert Lower(DropTrailingDigits(Lower(raw))) == Lower(DropTrailingDigits(raw)) by {
      DropTrailingDigitsLower(raw);
      LowerIdempotent(DropTrailingDigits(raw));
    }
  }

  /** `"password"` is an exact match. */
  lemma ExactExample()
    ensures LooksLikeCommonPassword("password")
  {
    assert Strip("password") == "password" by {
      assert StripLeading("password") == "password";
      assert StripTrailing("password") == "password";
    }
    assert Lower("password") == "password";
  }

  /** `"Password123"` is letters then digits, and its base `password` is on the list. */
  lemma TrailingDigitsExample()
    ensures LooksLikeCommonPassword("Password123")
  {
    var raw := "Password123";
    assert Strip(raw) == raw by {
      assert StripLeading(raw) == raw;
      assert StripTrailing(raw) == raw;
    }
    assert LettersThenDigitsAt(raw, 8);
    DigitRuleBase(raw, 8);
    assert raw[..8] == "Password";
    assert Lower("Password") == "password";
  }

  /** `"p@ssw0rd"` translates to `password`. */
  lemma LeetExample()
    ensures LooksLikeCommonPassword("p@ssw0rd")
  {
    var raw := "p@ssw0rd";
    assert Strip(raw) == raw by {
      assert StripLeading(raw) == raw;
      assert StripTrailing(raw) == raw;
    }
    assert Lower(raw) == raw;
    assert Leet(raw) == "password";
  }
}
