/** Small shared vocabulary: optional values, the JavaScript string operations the
    routes and jobs use, and decimal numerals. */
module Common {

  datatype Option<+T> = None | Some(value: T) {
    function GetOr(default: T): T {
      match this
      case Some(v) => v
      case None => default
    }
  }

  /** `s.startsWith(p)` */
  predicate StartsWith(s: string, p: string)
    ensures StartsWith(s, p) <==> IndexOf(s, p) == Some(0)
  {
    assert |p| <= |s| ==> s[0..|p|] == s[..|p|];
    |p| <= |s| && s[..|p|] == p
  }

  /** `p` occurs in `s` starting at position `i`. */
  predicate OccursAt(s: string, p: string, i: nat) {
    i + |p| <= |s| && s[i..i + |p|] == p
  }

  /** `s.indexOf(p)`: the first position at which `p` occurs in `s`, or None. */
  function IndexOf(s: string, p: string): (r: Option<nat>)
    ensures r.Some? ==> OccursAt(s, p, r.value)
    ensures r.Some? ==> forall i: nat :: i < r.value ==> !OccursAt(s, p, i)
    ensures r.None? ==> forall i: nat :: !OccursAt(s, p, i)
    decreases |s|
  {
    if |p| > |s| then None
    else if s[..|p|] == p then Some(0)
    else
      assert !OccursAt(s, p, 0) by { assert s[0..|p|] == s[..|p|]; }
      ShiftOccurrence(s, p);
      match IndexOf(s[1..], p)
      case None => None
      case Some(k) => Some(k + 1)
  }

  lemma ShiftOccurrence(s: string, p: string)
    requires s != []
    ensures forall i: nat :: i >= 1 ==> (OccursAt(s, p, i) <==> OccursAt(s[1..], p, i - 1))
  {
    forall i: nat | i >= 1
      ensures OccursAt(s, p, i) <==> OccursAt(s[1..], p, i - 1)
    {
      if i + |p| <= |s| {
        assert s[1..][i - 1..i - 1 + |p|] == s[i..i + |p|];
      }
    }
  }

  /** `s.replace(p, q)` with a string pattern: only the first occurrence is replaced.
      JavaScript expands `$` patterns in a replacement string, so `q` is kept free of
      `$`, where the replacement is inserted literally. */
  function ReplaceFirst(s: string, p: string, q: string): (r: string)
    requires '$' !in q
    ensures IndexOf(s, p).None? ==> r == s
    ensures IndexOf(s, p).Some? ==>
      && |r| == |s| - |p| + |q|
      && r[..IndexOf(s, p).value] == s[..IndexOf(s, p).value]
      && OccursAt(r, q, IndexOf(s, p).value)
      && r[IndexOf(s, p).value + |q|..] == s[IndexOf(s, p).value + |p|..]
  {
    match IndexOf(s, p)
    case None => s
    case Some(i) => s[..i] + q + s[i + |p|..]
  }

  /** Replacing a prefix by the empty string drops it from the front. */
  lemma ReplacePrefix(p: string, rest: string)
    ensures ReplaceFirst(p + rest, p, "") == rest
  {
    var s := p + rest;
    assert s[..|p|] == p;
    assert IndexOf(s, p) == Some(0);
    assert s[|p|..] == rest;
  }

  predicate IsDigit(c: char) {
    '0' <= c <= '9'
  }

  function DigitChar(d: nat): char
    requires d < 10
  {
    ['0', '1', '2', '3', '4', '5', '6', '7', '8', '9'][d]
  }

  function DigitValue(c: char): (d: nat)
    requires IsDigit(c)
    ensures d < 10 && DigitChar(d) == c
  {
    (c as int - '0' as int) as nat
  }

  /** A decimal numeral as JavaScript prints a non-negative integer: digits only,
      no leading zero except for "0" itself. */
  predicate CanonicalNumeral(s: string) {
    && |s| > 0
    && (forall i :: 0 <= i < |s| ==> IsDigit(s[i]))
    && (s[0] == '0' ==> |s| == 1)
  }

  /** The value of a string of decimal digits. */
  function NumeralValue(s: string): nat
    requires forall i :: 0 <= i < |s| ==> IsDigit(s[i])
  {
    if s == [] then 0
    else NumeralValue(s[..|s| - 1]) * 10 + DigitValue(s[|s| - 1])
  }

  /** `String(n)` for a non-negative integer. */
  function NatToString(n: nat): (s: string)
    ensures CanonicalNumeral(s)
    ensures forall i :: 0 <= i < |s| ==> IsDigit(s[i])
    ensures NumeralValue(s) == n
  {
    if n < 10 then [DigitChar(n)]
    else
      var r := NatToString(n / 10) + [DigitChar(n % 10)];
      assert r[..|r| - 1] == NatToString(n / 10);
      r
  }

  /** Printing and reading decimal numerals are inverse: every canonical numeral is
      the printed form of its value. */
  lemma {:induction false} NumeralRoundTrip(s: string)
    requires CanonicalNumeral(s)
    ensures NatToString(NumeralValue(s)) == s
    decreases |s|
  {
    if |s| == 1 {
    } else {
      var init := s[..|s| - 1];
      assert CanonicalNumeral(init);
      NumeralRoundTrip(init);
      var v := NumeralValue(s);
      assert NumeralValue(init) >= 1 by { NonZeroLeading(init); }
      assert v / 10 == NumeralValue(init) && v % 10 == DigitValue(s[|s| - 1]);
      assert s == init + [s[|s| - 1]];
    }
  }

  lemma {:induction false} NonZeroLeading(s: string)
    requires CanonicalNumeral(s) && s[0] != '0'
    ensures NumeralValue(s) >= 1
    decreases |s|
  {
    if |s| > 1 {
      var init := s[..|s| - 1];
      assert init[0] == s[0];
      NonZeroLeading(init);
    } else {
      assert DigitValue(s[0]) != 0;
    }
  }

  /** `String(n)` for an integer of either sign. */
  function IntToString(n: int): string {
    if n < 0 then "-" + NatToString(-n) else NatToString(n)
  }

  /** No element occurs twice. */
  predicate Distinct<T(==)>(s: seq<T>) {
    forall i, j :: 0 <= i < j < |s| ==> s[i] != s[j]
  }

  function Elements(s: seq<string>): (r: set<string>)
    ensures forall x :: x in r <==> x in s
  {
    set x | x in s
  }

  /** A list without repetitions has as many elements as its set. */
  lemma {:induction false} DistinctCardinality(s: seq<string>)
    requires Distinct(s)
    ensures |Elements(s)| == |s|
  {
    if s != [] {
      var t := s[1..];
      assert Distinct(t);
      DistinctCardinality(t);
      assert s[0] !in t;
      assert Elements(s) == Elements(t) + {s[0]};
    }
  }
}
