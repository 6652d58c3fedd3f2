/** The two entropy estimates (`shannon_entropy_bits` and
    `estimated_search_space_entropy_bits`) and the conservative minimum of the two.
    `math.log2` is not modelled: every estimate takes the logarithm as a
    parameter `log2`, and the facts about the estimates assume only its sign. */
module Entropy {
  import opened Numbers
  import opened Charsets

  /** What the estimates need of `log2`: it is at most 0 on (0, 1] and at least 0 from 1 on. */
  ghost predicate Log2Sign(log2: real -> real) {
    && (forall x :: 0.0 < x <= 1.0 ==> log2(x) <= 0.0)
    && (forall x :: 1.0 <= x ==> log2(x) >= 0.0)
  }

  /** Number of occurrences of `c` in `s`. */
  function Count(s: string, c: char): nat {
    if s == [] then 0
    else Count(s[..|s| - 1], c) + (if s[|s| - 1] == c then 1 else 0)
  }

  predicate NoDuplicates(d: seq<char>) {
    forall i, j :: 0 <= i < j < |d| ==> d[i] != d[j]
  }

  /** The distinct characters of `s` in order of first occurrence, which is
      the order in which a dictionary keyed by them iterates. */
  function Distinct(s: string): seq<char> {
    if s == [] then []
    else
      var p := Distinct(s[..|s| - 1]);
      if s[|s| - 1] in p then p else p + [s[|s| - 1]]
  }

  /** A count is at most the length, and positive exactly for the characters that occur. */
  lemma {:induction false} CountBounds(s: string, c: char)
    ensures Count(s, c) <= |s|
    ensures Count(s, c) > 0 <==> c in s
  {
    if s != [] {
      var init := s[..|s| - 1];
      assert s == init + [s[|s| - 1]];
      CountBounds(init, c);
    }
  }

  /** The distinct characters are exactly the characters of `s`, each listed once. */
  lemma {:induction false} DistinctMembers(s: string)
    ensures forall c :: c in Distinct(s) <==> c in s
    ensures NoDuplicates(Distinct(s))
  {
    if s != [] {
      var init := s[..|s| - 1];
      assert s == init + [s[|s| - 1]];
      DistinctMembers(init);
    }
  }

  lemma CountSnoc(s: string, x: char, c: char)
    ensures Count(s + [x], c) == Count(s, c) + (if x == c then 1 else 0)
  {
    assert (s + [x])[..|s|] == s;
  }

  lemma DistinctSnoc(s: string, x: char)
    ensures Distinct(s + [x]) == if x in Distinct(s) then Distinct(s) else Distinct(s) + [x]
  {
    assert (s + [x])[..|s|] == s;
  }

  /** Sum of the counts a table holds for `keys`. */
  function Total(keys: seq<char>, freq: map<char, nat>): nat
    requires forall k :: k in keys ==> k in freq
  {
    if keys == [] then 0 else Total(keys[..|keys| - 1], freq) + freq[keys[|keys| - 1]]
  }

  /** Changing the count of a character that is not among `keys` leaves their total alone. */
  lemma {:induction false} TotalOutside(keys: seq<char>, freq: map<char, nat>, c: char, v: nat)
    requires forall k :: k in keys ==> k in freq
    requires c !in keys
    ensures Total(keys, freq[c := v]) == Total(keys, freq)
  {
    if keys != [] {
      TotalOutside(keys[..|keys| - 1], freq, c, v);
    }
  }

  /** Adding one to the count of a character that occurs once among `keys` adds one to their total. */
  lemma {:induction false} TotalBump(keys: seq<char>, freq: map<char, nat>, c: char)
    requires forall k :: k in keys ==> k in freq
    requires NoDuplicates(keys) && c in keys
    ensures Total(keys, freq[c := freq[c] + 1]) == Total(keys, freq) + 1
  {
    var init := keys[..|keys| - 1];
    var last := keys[|keys| - 1];
    assert keys == init + [last];
    if last == c {
      assert c !in init;
      TotalOutside(init, freq, c, freq[c] + 1);
    } else {
      assert c in init;
      TotalBump(init, freq, c);
    }
  }

  /** `freq` with `keys` in insertion order is the frequency table of `s`. */
  ghost predicate TableOf(freq: map<char, nat>, keys: seq<char>, s: string) {
    && keys == Distinct(s)
    && (forall c :: c in freq <==> c in s)
    && (forall c :: c in freq ==> freq[c] == Count(s, c))
    && (forall k :: k in keys ==> k in freq)
    && Total(keys, freq) == |s|
  }

  /** After one more character, the table's keys are still exactly the characters seen. */
  lemma KeysSnoc(freq: map<char, nat>, s: string, x: char, v: nat)
    requires forall c :: c in freq <==> c in s
    ensures forall c :: c in freq[x := v] <==> c in s + [x]
  {
    forall c ensures c in freq[x := v] <==> c in s + [x] {
      assert c in s + [x] <==> c in s || c == x;
    }
  }

  /** After one more character `x`, whose count becomes `v`, every count is still right. */
  lemma CountsSnoc(freq: map<char, nat>, s: string, x: char, v: nat)
    requires forall c :: c in freq ==> freq[c] == Count(s, c)
    requires v == Count(s, x) + 1
    ensures forall c :: c in freq[x := v] ==> freq[x := v][c] == Count(s + [x], c)
  {
    forall c | c in freq[x := v] ensures freq[x := v][c] == Count(s + [x], c) {
      CountSnoc(s, x, c);
    }
  }

  /** One step of the counting loop for a character seen before: its count goes up by one. */
  lemma TableSnocSeen(freq: map<char, nat>, keys: seq<char>, s: string, x: char)
    requires TableOf(freq, keys, s) && x in freq
    ensures TableOf(freq[x := freq[x] + 1], keys, s + [x])
  {
    var freq' := freq[x := freq[x] + 1];
    assert keys == Distinct(s + [x]) && NoDuplicates(keys) && x in keys by {
      DistinctMembers(s);
      DistinctSnoc(s, x);
    }
    assert forall c :: c in freq' <==> c in s + [x] by {
      KeysSnoc(freq, s, x, freq[x] + 1);
    }
    assert forall c :: c in freq' ==> freq'[c] == Count(s + [x], c) by {
      CountsSnoc(freq, s, x, freq[x] + 1);
    }
    assert Total(keys, freq') == |s + [x]| by {
      TotalBump(keys, freq, x);
    }
  }

  /** One step of the counting loop for a new character: it enters the table with count 1, as the last key. */
  lemma TableSnocNew(freq: map<char, nat>, keys: seq<char>, s: string, x: char)
    requires TableOf(freq, keys, s) && x !in freq
    ensures TableOf(freq[x := 1], keys + [x], s + [x])
  {
    var freq' := freq[x := 1];
    assert keys + [x] == Distinct(s + [x]) && x !in keys by {
      DistinctMembers(s);
      DistinctSnoc(s, x);
    }
    assert forall c :: c in freq' <==> c in s + [x] by {
      KeysSnoc(freq, s, x, 1);
    }
    assert forall c :: c in freq' ==> freq'[c] == Count(s + [x], c) by {
      CountBounds(s, x);
      CountsSnoc(freq, s, x, 1);
    }
    assert Total(keys + [x], freq') == |s + [x]| by {
      TotalOutside(keys, freq, x, 1);
      assert (keys + [x])[..|keys|] == keys;
    }
  }

  /** Lines 74-76 of `shannon_entropy_bits`: the table from each character of
      the password to its number of occurrences, with its keys in insertion order. */
  method FrequencyTable(pw: string) returns (freq: map<char, nat>, keys: seq<char>)
    ensures keys == Distinct(pw)
    ensures forall c :: c in freq <==> c in pw
    ensures forall c :: c in freq ==> freq[c] == Count(pw, c)
    ensures forall k :: k in keys ==> k in freq
    ensures Total(keys, freq) == |pw|
  {
    freq := map[];
    keys := [];
    var i := 0;
    while i < |pw|
      invariant 0 <= i <= |pw|
      invariant TableOf(freq, keys, pw[..i])
    {
      var ch := pw[i];
      assert pw[..i + 1] == pw[..i] + [ch];
      if ch in freq {
        TableSnocSeen(freq, keys, pw[..i], ch);
        freq := freq[ch := freq[ch] + 1];
      } else {
        TableSnocNew(freq, keys, pw[..i], ch);
        freq := freq[ch := 1];
        keys := keys + [ch];
      }
      i := i + 1;
    }
    assert pw[..i] == pw;
  }

  /** `count / length`: the share of the password taken by one character. */
  function Probability(count: nat, length: nat): real
    requires length > 0
  {
    count as real / length as real
  }

  /** `p * log2(p)`. */
  function PLogP(p: real, log2: real -> real): real {
    p * log2(p)
  }

  /** `-(p1 * log2(p1)) - ... - (pn * log2(pn))` over the first `n` of `keys`,
      each `p` being that character's share of `pw`, subtracted in the table's order. */
  function EntropySum(pw: string, keys: seq<char>, n: nat, log2: real -> real): real
    requires pw != [] && n <= |keys|
  {
    if n == 0 then 0.0
    else EntropySum(pw, keys, n - 1, log2) - PLogP(Probability(Count(pw, keys[n - 1]), |pw|), log2)
  }

  /** The value `shannon_entropy_bits` returns: the per-character entropy of
      the character frequencies, times the length; 0 for the empty password. */
  function ShannonEntropy(pw: string, log2: real -> real): real {
    if pw == [] then 0.0
    else EntropySum(pw, Distinct(pw), |Distinct(pw)|, log2) * |pw| as real
  }

  /** Every term subtracted is at most 0, so the sum never goes below 0. */
  lemma {:induction false} EntropySumNonNegative(pw: string, keys: seq<char>, n: nat, log2: real -> real)
    requires Log2Sign(log2) && pw != [] && n <= |keys|
    requires forall k :: k in keys ==> k in pw
    ensures EntropySum(pw, keys, n, log2) >= 0.0
  {
    if n > 0 {
      EntropySumNonNegative(pw, keys, n - 1, log2);
      CountBounds(pw, keys[n - 1]);
      TermNonPositive(Count(pw, keys[n - 1]), |pw|, log2);
    }
  }

  /** The Shannon estimate is never negative. */
  lemma ShannonNonNegative(pw: string, log2: real -> real)
    requires Log2Sign(log2)
    ensures ShannonEntropy(pw, log2) >= 0.0
  {
    if pw != [] {
      DistinctMembers(pw);
      EntropySumNonNegative(pw, Distinct(pw), |Distinct(pw)|, log2);
      SignOfScaling(EntropySum(pw, Distinct(pw), |Distinct(pw)|, log2), |pw| as real);
    }
  }

  /** A password made of one character repeated has a single key, counted `|s|` times. */
  lemma {:induction false} ConstantTable(s: string)
    requires s != [] && forall i :: 0 <= i < |s| ==> s[i] == s[0]
    ensures Distinct(s) == [s[0]]
    ensures Count(s, s[0]) == |s|
    decreases |s|
  {
    if |s| > 1 {
      var init := s[..|s| - 1];
      ConstantTable(init);
    }
  }

  /** A character that fills the whole password has probability 1. */
  lemma WholeShare(n: nat)
    requires n > 0
    ensures Probability(n, n) == 1.0
  {
  }

  /** Frequencies say nothing about order or patterns: with `log2(1) = 0`, a
      password of one repeated character has a Shannon estimate of 0 bits. */
  lemma ConstantShannon(s: string, log2: real -> real)
    requires s != [] && forall i :: 0 <= i < |s| ==> s[i] == s[0]
    requires log2(1.0) == 0.0
    ensures ShannonEntropy(s, log2) == 0.0
  {
    ConstantTable(s);
    WholeShare(|s|);
    assert EntropySum(s, [s[0]], 1, log2) == 0.0 - PLogP(1.0, log2);
  }

  /** Lines 74-82 of `shannon_entropy_bits`: the frequency table, then the
      loop over its values that subtracts `p * log2(p)` for each. */
  method SumTerms(pw: string, log2: real -> real) returns (entropy: real)
    requires pw != []
    ensures entropy == EntropySum(pw, Distinct(pw), |Distinct(pw)|, log2)
  {
    var freq, keys := FrequencyTable(pw);
    var length := |pw|;
    entropy := 0.0;
    for j := 0 to |keys|
      invariant entropy == EntropySum(pw, keys, j, log2)
    {
      var count := freq[keys[j]];
      var p := Probability(count, length);
      entropy := entropy - PLogP(p, log2);
    }
  }

  /** `shannon_entropy_bits`: 0 for the empty password, otherwise the sum
      above scaled by the length. */
  method ShannonEntropyBits(pw: string, log2: real -> real) returns (bits: real)
    ensures bits == ShannonEntropy(pw, log2)
    ensures pw == [] ==> bits == 0.0
    ensures Log2Sign(log2) ==> bits >= 0.0
  {
    if pw == [] {
      return 0.0;
    }
    var entropy := SumTerms(pw, log2);
    bits := entropy * |pw| as real;
    if Log2Sign(log2) {
      ShannonNonNegative(pw, log2);
    }
  }

  /** A character with `count` occurrences out of `length` has `p * log2(p) <= 0`. */
  lemma TermNonPositive(count: nat, length: nat, log2: real -> real)
    requires Log2Sign(log2)
    requires 0 < count <= length
    ensures PLogP(Probability(count, length), log2) <= 0.0
  {
    var p := Probability(count, length);
    assert 0.0 < p <= 1.0;
    assert log2(p) <= 0.0;
    SignOfProduct(p, log2(p));
  }

  lemma SignOfProduct(p: real, q: real)
    requires p > 0.0 && q <= 0.0
    ensures p * q <= 0.0
  {
  }

  lemma SignOfScaling(e: real, n: real)
    requires e >= 0.0 && n >= 0.0
    ensures e * n >= 0.0
  {
  }

  /** `estimated_search_space_entropy_bits`: length times `log2` of the
      detected alphabet size, or 0 when no class was detected, which happens
      only for the empty password. */
  function EstimatedSearchSpaceEntropyBits(pw: string, log2: real -> real): (r: real)
    ensures CharsetSize(pw) == 0 <==> pw == []
    ensures pw == [] ==> r == 0.0
    ensures Log2Sign(log2) ==> r >= 0.0
  {
    CharsetSizeBounds(pw);
    var size := CharsetSize(pw);
    if size == 0 then 0.0 else |pw| as real * log2(size as real)
  }

}
