/** The string operations the engine uses, restricted to ASCII: the character
    ranges of its regular expressions, `str.lower`, `str.strip`, the substring
    test `sub in s` and reversal `s[::-1]`. */
module Text {

  predicate IsLower(c: char) { 'a' <= c <= 'z' }
  predicate IsUpper(c: char) { 'A' <= c <= 'Z' }
  predicate IsDigit(c: char) { '0' <= c <= '9' }
  predicate IsLetter(c: char) { IsLower(c) || IsUpper(c) }

  /** ASCII whitespace as `str.isspace` sees it: tab, line feed, vertical tab,
      form feed, carriage return, the four separators 0x1C-0x1F, and space. */
  predicate IsSpace(c: char) {
    (9 <= c as int <= 13) || (28 <= c as int <= 31) || c == ' '
  }

  /** `str.lower` on one character: A-Z go to a-z, everything else is kept. */
  function LowerChar(c: char): (d: char)
    ensures IsUpper(c) ==> IsLower(d) && d as int == c as int + 32
    ensures !IsUpper(c) ==> d == c
  {
    if IsUpper(c) then (c as int + 32) as char else c
  }

  function Lower(s: string): (r: string)
    ensures |r| == |s|
  {
    seq(|s|, i requires 0 <= i < |s| => LowerChar(s[i]))
  }

  /** Lowering works character by character, so it distributes over concatenation. */
  lemma LowerConcat(a: string, b: string)
    ensures Lower(a + b) == Lower(a) + Lower(b)
  {
    assert forall i | 0 <= i < |a + b| :: Lower(a + b)[i] == (Lower(a) + Lower(b))[i];
  }

  /** Lowering a character keeps it a letter exactly when it was one, and never touches digits. */
  lemma LowerCharClasses(c: char)
    ensures IsLetter(LowerChar(c)) <==> IsLetter(c)
    ensures IsDigit(LowerChar(c)) <==> IsDigit(c)
    ensures IsDigit(c) ==> LowerChar(c) == c
  {
  }

  /** `str.lstrip()`: drops leading whitespace. */
  function StripLeading(s: string): string
    decreases |s|
  {
    if s != [] && IsSpace(s[0]) then StripLeading(s[1..]) else s
  }

  /** `str.rstrip()`: drops trailing whitespace. */
  function StripTrailing(s: string): string
    decreases |s|
  {
    if s != [] && IsSpace(s[|s| - 1]) then StripTrailing(s[..|s| - 1]) else s
  }

  /** `str.strip()`. */
  function Strip(s: string): string {
    StripTrailing(StripLeading(s))
  }

  /** `lstrip` keeps a suffix that does not start with whitespace and drops only whitespace. */
  lemma {:induction false} StripLeadingIsSuffix(s: string)
    ensures |StripLeading(s)| <= |s|
    ensures StripLeading(s) == s[|s| - |StripLeading(s)|..]
    ensures StripLeading(s) == [] || !IsSpace(StripLeading(s)[0])
    ensures forall i :: 0 <= i < |s| - |StripLeading(s)| ==> IsSpace(s[i])
    decreases |s|
  {
    if s != [] && IsSpace(s[0]) {
      StripLeadingIsSuffix(s[1..]);
    }
  }

  /** `rstrip` keeps a prefix that does not end with whitespace and drops only whitespace. */
  lemma {:induction false} StripTrailingIsPrefix(s: string)
    ensures |StripTrailing(s)| <= |s|
    ensures StripTrailing(s) == s[..|StripTrailing(s)|]
    ensures StripTrailing(s) == [] || !IsSpace(StripTrailing(s)[|StripTrailing(s)| - 1])
    ensures forall i :: |StripTrailing(s)| <= i < |s| ==> IsSpace(s[i])
    decreases |s|
  {
    if s != [] && IsSpace(s[|s| - 1]) {
      StripTrailingIsPrefix(s[..|s| - 1]);
    }
  }

  /** `r` is the slice of `s` starting at `a` and everything outside it is whitespace. */
  predicate TrimmedAt(r: string, s: string, a: int) {
    && 0 <= a <= |s| - |r|
    && r == s[a..a + |r|]
    && (forall i :: 0 <= i < a ==> IsSpace(s[i]))
    && (forall i :: a + |r| <= i < |s| ==> IsSpace(s[i]))
  }

  /** What `str.strip()` returns: a slice of the input that neither starts nor
      ends with whitespace, everything cut off on either side being whitespace. */
  lemma StripIsTrim(s: string)
    ensures exists a :: TrimmedAt(Strip(s), s, a)
    ensures Strip(s) == [] || (!IsSpace(Strip(s)[0]) && !IsSpace(Strip(s)[|Strip(s)| - 1]))
  {
    var t := StripLeading(s);
    var r := StripTrailing(t);
    StripLeadingIsSuffix(s);
    StripTrailingIsPrefix(t);
    var a := |s| - |t|;
    assert r == Strip(s);
    assert TrimmedAt(r, s, a) by {
      assert r == s[a..a + |r|];
      forall i | a + |r| <= i < |s| ensures IsSpace(s[i]) {
        assert s[i] == t[i - a];
      }
    }
    assert r == [] || !IsSpace(r[0]) by {
      if r != [] {
        assert r[0] == t[0];
      }
    }
  }

  /** Stripping twice is stripping once. */
  lemma StripIdempotent(s: string)
    ensures Strip(Strip(s)) == Strip(s)
  {
    StripIsTrim(s);
    var r := Strip(s);
    if r != [] {
      assert StripLeading(r) == r;
      assert StripTrailing(r) == r;
    }
  }

  /** Lowering twice is lowering once. */
  lemma LowerIdempotent(s: string)
    ensures Lower(Lower(s)) == Lower(s)
  {
    assert forall i | 0 <= i < |s| :: Lower(Lower(s))[i] == Lower(s)[i];
  }

  /** Lowering never creates or removes whitespace, so it commutes with `lstrip`. */
  lemma {:induction false} StripLeadingLower(s: string)
    ensures StripLeading(Lower(s)) == Lower(StripLeading(s))
    decreases |s|
  {
    if s != [] {
      assert Lower(s)[0] == LowerChar(s[0]);
      if IsSpace(s[0]) {
        assert Lower(s)[1..] == Lower(s[1..]);
        StripLeadingLower(s[1..]);
      }
    }
  }

  /** Lowering commutes with `rstrip`. */
  lemma {:induction false} StripTrailingLower(s: string)
    ensures StripTrailing(Lower(s)) == Lower(StripTrailing(s))
    decreases |s|
  {
    if s != [] {
      assert Lower(s)[|s| - 1] == LowerChar(s[|s| - 1]);
      if IsSpace(s[|s| - 1]) {
        assert Lower(s)[..|s| - 1] == Lower(s[..|s| - 1]);
        StripTrailingLower(s[..|s| - 1]);
      }
    }
  }

  /** Lowering commutes with `strip`. */
  lemma StripLower(s: string)
    ensures Strip(Lower(s)) == Lower(Strip(s))
  {
    StripLeadingLower(s);
    StripTrailingLower(StripLeading(s));
  }

  /** `sub` occurs in `s` starting at index `j`. */
  predicate OccursAt(sub: string, s: string, j: int) {
    0 <= j && j + |sub| <= |s| && s[j..j + |sub|] == sub
  }

  /** Python's `sub in s` for strings. */
  predicate IsSubstring(sub: string, s: string) {
    exists j :: 0 <= j <= |s| - |sub| && OccursAt(sub, s, j)
  }

  /** A substring stays a substring when text is added on either side. */
  lemma SubstringExtends(sub: string, s: string, before: string, after: string)
    requires IsSubstring(sub, s)
    ensures IsSubstring(sub, before + s + after)
  {
    var j :| 0 <= j <= |s| - |sub| && OccursAt(sub, s, j);
    var t := before + s + after;
    assert t[|before| + j..|before| + j + |sub|] == s[j..j + |sub|];
    assert OccursAt(sub, t, |before| + j);
  }

  /** A string with a character that never appears in `s` does not occur in `s`. */
  lemma AbsentCharNotSubstring(sub: string, s: string, i: int)
    requires 0 <= i < |sub|
    requires forall j :: 0 <= j < |s| ==> s[j] != sub[i]
    ensures !IsSubstring(sub, s)
  {
    forall j | 0 <= j <= |s| - |sub| ensures !OccursAt(sub, s, j) {
      assert s[j..j + |sub|][i] == s[j + i];
    }
  }

  /** `s[::-1]`. */
  function Reverse(s: string): (r: string)
    ensures |r| == |s|
  {
    seq(|s|, i requires 0 <= i < |s| => s[|s| - 1 - i])
  }
}
