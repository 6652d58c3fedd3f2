/** Character-class detection (`detect_charsets`): which of the four classes
    occur in a password, and the alphabet size they add up to. */
module Charsets {
  import opened Text

  /** The four classes, declared in the order the detector tests them. */
  datatype CharClass = Lowercase | Uppercase | Digits | Symbols

  /** The class a character falls into: `[a-z]`, `[A-Z]`, `[0-9]`, or `[^a-zA-Z0-9]`. */
  function ClassOf(c: char): (k: CharClass)
    ensures k == Lowercase <==> IsLower(c)
    ensures k == Uppercase <==> IsUpper(c)
    ensures k == Digits <==> IsDigit(c)
    ensures k == Symbols <==> !IsLetter(c) && !IsDigit(c)
  {
    if IsLower(c) then Lowercase
    else if IsUpper(c) then Uppercase
    else if IsDigit(c) then Digits
    else Symbols
  }

  /** Position of a class in the detector's fixed order. */
  function Rank(k: CharClass): (n: nat)
    ensures n < 4
  {
    match k
    case Lowercase => 0
    case Uppercase => 1
    case Digits => 2
    case Symbols => 3
  }

  /** The name the detector records for a class. */
  function Name(k: CharClass): string {
    match k
    case Lowercase => "lowercase"
    case Uppercase => "uppercase"
    case Digits => "digits"
    case Symbols => "symbols"
  }

  /** The alphabet size a class contributes. */
  function Weight(k: CharClass): nat {
    match k
    case Lowercase => 26
    case Uppercase => 26
    case Digits => 10
    case Symbols => 33
  }

  lemma NameInjective(k: CharClass, k': CharClass)
    ensures Name(k) == Name(k') <==> k == k'
  {
    if k != k' {
      assert Name(k)[0] != Name(k')[0] || |Name(k)| != |Name(k')|;
    }
  }

  /** `re.search(<class>, pw)` succeeds. */
  predicate Present(pw: string, k: CharClass) {
    exists i :: 0 <= i < |pw| && ClassOf(pw[i]) == k
  }

  /** The classes present, in the detector's order. */
  function UsedClasses(pw: string): seq<CharClass> {
    (if Present(pw, Lowercase) then [Lowercase] else [])
    + (if Present(pw, Uppercase) then [Uppercase] else [])
    + (if Present(pw, Digits) then [Digits] else [])
    + (if Present(pw, Symbols) then [Symbols] else [])
  }

  /** The `used` list: names of the classes present. */
  function UsedNames(pw: string): seq<string> {
    var ks := UsedClasses(pw);
    seq(|ks|, i requires 0 <= i < |ks| => Name(ks[i]))
  }

  function WeightSum(ks: seq<CharClass>): nat {
    if ks == [] then 0 else Weight(ks[0]) + WeightSum(ks[1..])
  }

  /** The `sets_size` total: sum of the weights of the classes present. */
  function CharsetSize(pw: string): nat {
    WeightSum(UsedClasses(pw))
  }

  lemma {:induction false} WeightSumConcat(a: seq<CharClass>, b: seq<CharClass>)
    ensures WeightSum(a + b) == WeightSum(a) + WeightSum(b)
  {
    if a != [] {
      assert (a + b)[0] == a[0] && (a + b)[1..] == a[1..] + b;
      WeightSumConcat(a[1..], b);
    } else {
      assert a + b == b;
    }
  }

  /** The alphabet size class by class: 26, 26, 10 and 33 for each class present. */
  lemma CharsetSizeByClass(pw: string)
    ensures CharsetSize(pw) == (if Present(pw, Lowercase) then 26 else 0)
                             + (if Present(pw, Uppercase) then 26 else 0)
                             + (if Present(pw, Digits) then 10 else 0)
                             + (if Present(pw, Symbols) then 33 else 0)
  {
    var l := if Present(pw, Lowercase) then [Lowercase] else [];
    var u := if Present(pw, Uppercase) then [Uppercase] else [];
    var d := if Present(pw, Digits) then [Digits] else [];
    var y := if Present(pw, Symbols) then [Symbols] else [];
    assert UsedClasses(pw) == l + u + d + y;
    assert WeightSum(l) == (if Present(pw, Lowercase) then 26 else 0);
    assert WeightSum(u) == (if Present(pw, Uppercase) then 26 else 0);
    assert WeightSum(d) == (if Present(pw, Digits) then 10 else 0);
    assert WeightSum(y) == (if Present(pw, Symbols) then 33 else 0);
    WeightSumConcat(l + u + d, y);
    WeightSumConcat(l + u, d);
    WeightSumConcat(l, u);
  }

  /** The used classes are exactly the present ones, each once, in the fixed order. */
  lemma UsedClassesInOrder(pw: string)
    ensures |UsedClasses(pw)| <= 4
    ensures forall k :: k in UsedClasses(pw) <==> Present(pw, k)
    ensures forall i, j :: 0 <= i < j < |UsedClasses(pw)| ==>
              Rank(UsedClasses(pw)[i]) < Rank(UsedClasses(pw)[j])
  {
  }

  /** A class name is recorded exactly when the class occurs in the password. */
  lemma UsedNamesMatchPresence(pw: string, k: CharClass)
    ensures Name(k) in UsedNames(pw) <==> Present(pw, k)
    ensures |UsedNames(pw)| == |UsedClasses(pw)| <= 4
  {
    UsedClassesInOrder(pw);
    var ks := UsedClasses(pw);
    if Name(k) in UsedNames(pw) {
      var i :| 0 <= i < |ks| && UsedNames(pw)[i] == Name(k);
      NameInjective(ks[i], k);
    }
    if Present(pw, k) {
      var i :| 0 <= i < |ks| && ks[i] == k;
      assert UsedNames(pw)[i] == Name(k);
    }
  }

  /** The alphabet size is at most 26 + 26 + 10 + 33, and it is zero only for
      the empty password, because every character falls into some class. */
  lemma CharsetSizeBounds(pw: string)
    ensures CharsetSize(pw) <= 95
    ensures CharsetSize(pw) == 0 <==> pw == []
  {
    CharsetSizeByClass(pw);
    if pw != [] {
      assert Present(pw, ClassOf(pw[0]));
    }
  }

  /** One `re.search` for a class: a left-to-right scan. */
  method SearchClass(pw: string, k: CharClass) returns (found: bool)
    ensures found <==> Present(pw, k)
  {
    found := false;
    var i := 0;
    while i < |pw| && !found
      invariant 0 <= i <= |pw|
      invariant found ==> Present(pw, k)
      invariant !found ==> forall j :: 0 <= j < i ==> ClassOf(pw[j]) != k
    {
      if ClassOf(pw[i]) == k {
        found := true;
      }
      i := i + 1;
    }
  }

  /** `detect_charsets`: adds each present class's weight to the size and its
      name to the list, in the fixed order. */
  method DetectCharsets(pw: string) returns (size: nat, used: seq<string>)
    ensures size == CharsetSize(pw)
    ensures used == UsedNames(pw)
  {
    size := 0;
    used := [];
    var found := SearchClass(pw, Lowercase);
    if found {
      size := size + 26;
      used := used + ["lowercase"];
    }
    found := SearchClass(pw, Uppercase);
    if found {
      size := size + 26;
      used := used + ["uppercase"];
    }
    found := SearchClass(pw, Digits);
    if found {
      size := size + 10;
      used := used + ["digits"];
    }
    found := SearchClass(pw, Symbols);
    if found {
      size := size + 33;
      used := used + ["symbols"];
    }
    CharsetSizeByClass(pw);
  }
}
