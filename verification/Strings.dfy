/** Strings as the program uses them: ordering, joining, splitting and decimal digits. */
module Strings {
  import opened Common

  // ---------------------------------------------------------------- ordering

  /** The `<` of two strings: character by character, a proper prefix first. */
  predicate Less(a: string, b: string) {
    b != "" && (a == "" || a[0] < b[0] || (a[0] == b[0] && Less(a[1..], b[1..])))
  }

  lemma {:induction false} LessIrreflexive(a: string)
    ensures !Less(a, a)
  {
    if a != "" {
      LessIrreflexive(a[1..]);
    }
  }

  lemma {:induction false} LessTotal(a: string, b: string)
    ensures a == b || Less(a, b) || Less(b, a)
  {
    if a != "" && b != "" && a[0] == b[0] {
      LessTotal(a[1..], b[1..]);
      assert a == [a[0]] + a[1..] && b == [b[0]] + b[1..];
    }
  }

  lemma {:induction false} LessTransitive(a: string, b: string, c: string)
    requires Less(a, b) && Less(b, c)
    ensures Less(a, c)
  {
    if a != "" && a[0] == b[0] == c[0] {
      LessTransitive(a[1..], b[1..], c[1..]);
    }
  }

  ghost predicate StrictlyIncreasing(s: seq<string>) {
    forall i, j :: 0 <= i < j < |s| ==> Less(s[i], s[j])
  }

  /** The least element of a non-empty set: what the head of `[...keys].sort()` is. */
  method Least(s: set<string>) returns (least: string)
    requires s != {}
    ensures least in s
    ensures forall x :: x in s && x != least ==> Less(least, x)
  {
    least :| least in s;
    var rest := s - {least};
    while rest != {}
      invariant least in s && rest <= s && least !in rest
      invariant forall x :: x in s && x !in rest && x != least ==> Less(least, x)
      decreases rest
    {
      var y :| y in rest;
      LessTotal(least, y);
      rest := rest - {y};
      if Less(y, least) {
        forall x | x in s && x !in rest && x != y
          ensures Less(y, x)
        {
          if x != least {
            LessTransitive(y, least, x);
          }
        }
        least := y;
      }
    }
  }

  /** `[...names].sort()` of a set of names. */
  method SortedNames(s: set<string>) returns (r: seq<string>)
    ensures StrictlyIncreasing(r)
    ensures forall x :: x in r <==> x in s
  {
    r := [];
    var rest := s;
    while rest != {}
      invariant StrictlyIncreasing(r)
      invariant rest <= s
      invariant forall x :: x in r <==> x in s - rest
      invariant forall x, y :: x in r && y in rest ==> Less(x, y)
      decreases rest
    {
      var least := Least(rest);
      var smaller := rest - {least};
      forall x, y | x in r + [least] && y in smaller
        ensures Less(x, y)
      {
        if x !in r {
          assert x == least;
        }
      }
      r := r + [least];
      rest := smaller;
    }
  }

  // ---------------------------------------------------------- join and split

  /** `parts.join(sep)`. */
  function Join(parts: seq<string>, sep: string): string {
    if |parts| == 0 then ""
    else if |parts| == 1 then parts[0]
    else parts[0] + sep + Join(parts[1..], sep)
  }

  /** The string has no "->" in it. */
  ghost predicate FreeOfArrow(s: string) {
    forall i, j :: 0 <= i && j == i + 1 && j < |s| ==> !(s[i] == '-' && s[j] == '>')
  }

  /** Where the first "->" of a joined list stands: after its first part. */
  lemma FirstArrow(parts: seq<string>, i: nat)
    requires parts != [] && FreeOfArrow(parts[0])
    requires i + 1 < |Join(parts, "->")|
    ensures |parts| == 1 || i < |parts[0]| ==>
              !(Join(parts, "->")[i] == '-' && Join(parts, "->")[i + 1] == '>')
    ensures |parts| > 1 ==> |parts[0]| + 1 < |Join(parts, "->")|
    ensures |parts| > 1 && i == |parts[0]| ==> Join(parts, "->")[i] == '-' && Join(parts, "->")[i + 1] == '>'
  {
  }

  lemma {:induction false} ArrowJoinInjective(a: seq<string>, b: seq<string>)
    requires a != [] && b != [] && Join(a, "->") == Join(b, "->")
    requires forall x :: x in a || x in b ==> FreeOfArrow(x)
    ensures a == b
  {
    var s := Join(a, "->");
    assert a[0] in a && b[0] in b;
    if |a| == 1 && |b| == 1 {
    } else if |a| > 1 && |b| > 1 && |a[0]| == |b[0]| {
      assert a[0] == s[..|a[0]|] == b[0];
      assert s[|a[0]| + 2..] == Join(a[1..], "->") == Join(b[1..], "->");
      ArrowJoinInjective(a[1..], b[1..]);
      assert a == [a[0]] + a[1..] && b == [b[0]] + b[1..];
    } else {
      var i := if |b| == 1 || (|a| > 1 && |a[0]| < |b[0]|) then |a[0]| else |b[0]|;
      FirstArrow(if i == |a[0]| && |a| > 1 then a else b, 0);
      FirstArrow(a, i);
      FirstArrow(b, i);
      assert false;
    }
  }

  /** `s.split(sep)`. */
  function Split(s: string, sep: char): (parts: seq<string>)
    ensures parts != []
  {
    if s == "" then [""]
    else if s[0] == sep then [""] + Split(s[1..], sep)
    else [[s[0]] + Split(s[1..], sep)[0]] + Split(s[1..], sep)[1..]
  }

  /** What stands before the first separator is the first part. */
  lemma {:induction false} SplitAfter(a: string, rest: string, sep: char)
    requires sep !in a
    ensures Split(a + [sep] + rest, sep) == [a] + Split(rest, sep)
  {
    var s := a + [sep] + rest;
    if a == "" {
      assert s[1..] == rest;
    } else {
      SplitAfter(a[1..], rest, sep);
      assert s[1..] == a[1..] + [sep] + rest;
      assert a == [a[0]] + a[1..];
    }
  }

  /** A string is one part exactly when the separator is not in it, and then it is that part. */
  lemma {:induction false} SplitWhole(s: string, sep: char)
    ensures |Split(s, sep)| == 1 <==> sep !in s
    ensures sep !in s ==> Split(s, sep) == [s]
  {
    if s != "" {
      SplitWhole(s[1..], sep);
      assert s == [s[0]] + s[1..];
    }
  }

  lemma JoinOne(only: string, sep: string)
    ensures Join([only], sep) == only
  {
  }

  lemma JoinCons(first: string, rest: seq<string>, sep: string)
    requires rest != []
    ensures Join([first] + rest, sep) == first + sep + Join(rest, sep)
  {
    assert ([first] + rest)[1..] == rest;
  }

  lemma JoinLonger(c: char, parts: seq<string>, sep: string)
    requires parts != []
    ensures Join([[c] + parts[0]] + parts[1..], sep) == [c] + Join(parts, sep)
  {
    var longer := [[c] + parts[0]] + parts[1..];
    assert longer[1..] == parts[1..];
  }

  /** No part has the separator in it. */
  lemma {:induction false} PartsHaveNoSeparator(s: string, sep: char)
    ensures forall i :: 0 <= i < |Split(s, sep)| ==> sep !in Split(s, sep)[i]
  {
    if s != "" {
      PartsHaveNoSeparator(s[1..], sep);
    }
  }

  /** Joining the parts with the separator gives the string back. */
  lemma {:induction false} JoinSplit(s: string, sep: char)
    ensures Join(Split(s, sep), [sep]) == s
  {
    hide Join;
    if s == "" {
      JoinOne("", [sep]);
    } else {
      JoinSplit(s[1..], sep);
      if s[0] == sep {
        JoinCons("", Split(s[1..], sep), [sep]);
      } else {
        JoinLonger(s[0], Split(s[1..], sep), [sep]);
      }
    }
  }

  // ------------------------------------------------------------ decimal digits

  predicate IsDigit(c: char) {
    '0' <= c <= '9'
  }

  predicate AllDigits(s: string) {
    forall i :: 0 <= i < |s| ==> IsDigit(s[i])
  }

  function Digit(d: nat): char
    requires d < 10
  {
    ('0' as int + d) as char
  }

  function DigitValue(c: char): nat
    requires IsDigit(c)
  {
    c as int - '0' as int
  }

  /** The decimal form of a number, as a template string prints it. */
  function Decimal(n: nat): string {
    if n < 10 then [Digit(n)] else Decimal(n / 10) + [Digit(n % 10)]
  }

  /** `Number(digits)`. */
  function NumberOf(digits: string): nat
    requires AllDigits(digits)
  {
    if digits == "" then 0
    else 10 * NumberOf(digits[..|digits| - 1]) + DigitValue(digits[|digits| - 1])
  }

  /** Printing a number and reading it back gives the number. */
  lemma {:induction false} DecimalRoundTrip(n: nat)
    ensures Decimal(n) != "" && AllDigits(Decimal(n)) && NumberOf(Decimal(n)) == n
  {
    var s := Decimal(n);
    if n < 10 {
      assert s[..0] == "";
    } else {
      DecimalRoundTrip(n / 10);
      assert s[..|s| - 1] == Decimal(n / 10) && s[|s| - 1] == Digit(n % 10);
    }
  }

  lemma DecimalInjective(m: nat, n: nat)
    ensures Decimal(m) == Decimal(n) <==> m == n
  {
    DecimalRoundTrip(m);
    DecimalRoundTrip(n);
  }

  /** A string that ends in a separator and digits splits there in one way only. */
  lemma DigitsAfterSeparator(a: string, b: string, sep: char, d: string, e: string)
    requires !IsDigit(sep) && AllDigits(d) && AllDigits(e)
    requires a + [sep] + d == b + [sep] + e
    ensures a == b && d == e
  {
    var s, t := a + [sep] + d, b + [sep] + e;
    assert forall k :: |a| < k < |s| ==> IsDigit(s[k]);
    assert forall k :: |b| < k < |t| ==> IsDigit(t[k]);
    assert s[|a|] == sep && t[|b|] == sep;
    assert a == s[..|a|] && b == t[..|b|];
    assert d == s[|a| + 1..] && e == t[|b| + 1..];
  }
}
