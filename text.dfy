/**
 * The few Python `str` operations the reward bot applies to its data:
 * `str(n)` / an f-string field of an int, `s.replace(a, b)` for one character,
 * and `s.title()`, with their reference properties.
 */
module Text {
  import opened Wrappers

  predicate IsDigit(c: char) { '0' <= c <= '9' }

  predicate AllDigits(s: string) { forall i :: 0 <= i < |s| ==> IsDigit(s[i]) }

  function DigitChar(d: nat): (c: char)
    requires d < 10
    ensures IsDigit(c) && c as int - '0' as int == d
  {
    ('0' as int + d) as char
  }

  function DigitValue(c: char): (d: nat)
    requires IsDigit(c)
    ensures d < 10 && DigitChar(d) == c
  {
    c as int - '0' as int
  }

  /** `str(n)` for a non-negative Python int: decimal digits, most significant first. */
  function Decimal(n: nat): (s: string)
    ensures |s| > 0 && AllDigits(s)
    ensures s[0] == '0' ==> n == 0
    decreases n
  {
    if n < 10 then [DigitChar(n)] else Decimal(n / 10) + [DigitChar(n % 10)]
  }

  /** The number a string of decimal digits denotes (reference reading of `Decimal`). */
  function DecimalValue(s: string): nat
    requires AllDigits(s)
  {
    if s == [] then 0 else DecimalValue(s[..|s| - 1]) * 10 + DigitValue(s[|s| - 1])
  }

  lemma {:induction false} DecimalRoundTrip(n: nat)
    ensures DecimalValue(Decimal(n)) == n
  {
    if n >= 10 {
      var s := Decimal(n);
      assert s[..|s| - 1] == Decimal(n / 10);
      DecimalRoundTrip(n / 10);
    }
  }

  lemma DecimalInjective(m: nat, n: nat)
    ensures Decimal(m) == Decimal(n) <==> m == n
  {
    DecimalRoundTrip(m);
    DecimalRoundTrip(n);
  }

  /** `str(i)` for any Python int: a minus sign before the digits of a negative value. */
  function IntToString(i: int): string {
    if i < 0 then "-" + Decimal(-i) else Decimal(i)
  }

  /** The text starts with a minus sign exactly for negative ints, and no two ints share a text. */
  lemma IntToStringInjective(i: int, j: int)
    ensures |IntToString(i)| > 0 && (IntToString(i)[0] == '-' <==> i < 0)
    ensures IntToString(i) == IntToString(j) <==> i == j
  {
    var si, sj := IntToString(i), IntToString(j);
    assert IsDigit(Decimal(if i < 0 then -i else i)[0]);
    assert IsDigit(Decimal(if j < 0 then -j else j)[0]);
    if si == sj {
      if i < 0 && j < 0 {
        assert si[1..] == Decimal(-i) && sj[1..] == Decimal(-j);
        DecimalInjective(-i, -j);
      } else if i >= 0 && j >= 0 {
        DecimalInjective(i, j);
      }
    }
  }

  /** Length of the run of digits that starts `t`. */
  function DigitRun(t: string): (k: nat)
    ensures k <= |t| && AllDigits(t[..k])
    ensures k < |t| ==> !IsDigit(t[k])
  {
    if t == [] || !IsDigit(t[0]) then 0
    else
      var k := 1 + DigitRun(t[1..]);
      assert t[..k] == [t[0]] + t[1..][..k - 1];
      k
  }

  /** Reads the longest run of digits at the start of `t` as a number; the rest is returned. */
  function ParseNat(t: string): Option<(nat, string)> {
    var k := DigitRun(t);
    if k == 0 then None else Some((DecimalValue(t[..k]), t[k..]))
  }

  lemma ParseNatDecimal(n: nat, rest: string)
    requires rest == [] || !IsDigit(rest[0])
    ensures ParseNat(Decimal(n) + rest) == Some((n, rest))
  {
    var d, t := Decimal(n), Decimal(n) + rest;
    var k := DigitRun(t);
    assert forall i :: 0 <= i < k ==> IsDigit(t[i]) by {
      forall i | 0 <= i < k ensures IsDigit(t[i]) { assert t[..k][i] == t[i]; }
    }
    if |d| < |t| {
      assert t[|d|] == rest[0];
    }
    assert k == |d|;
    assert t[..k] == d && t[k..] == rest;
    DecimalRoundTrip(n);
  }

  /** `s.replace(from, to)` where both are single characters: every occurrence is replaced. */
  function ReplaceChar(s: string, from: char, to: char): string {
    seq(|s|, i requires 0 <= i < |s| => if s[i] == from then to else s[i])
  }

  /**
   * The replacement works character by character: it maps the empty string to
   * itself, a single character `from` to `to` and any other single character to
   * itself, and it distributes over concatenation. These three facts determine it.
   */
  lemma ReplaceCharByPieces(a: string, b: string, c: char, from: char, to: char)
    ensures ReplaceChar([], from, to) == []
    ensures ReplaceChar([c], from, to) == if c == from then [to] else [c]
    ensures ReplaceChar(a + b, from, to) == ReplaceChar(a, from, to) + ReplaceChar(b, from, to)
  {
    var l, r := ReplaceChar(a + b, from, to), ReplaceChar(a, from, to) + ReplaceChar(b, from, to);
    forall i | 0 <= i < |a + b| ensures l[i] == r[i] {
      if i >= |a| { assert (a + b)[i] == b[i - |a|]; }
    }
  }

  /** When `from` and `to` differ, no `from` is left; replacing a second time changes nothing. */
  lemma ReplaceCharLeavesNoFrom(s: string, from: char, to: char)
    ensures from != to ==> from !in ReplaceChar(s, from, to)
    ensures ReplaceChar(ReplaceChar(s, from, to), from, to) == ReplaceChar(s, from, to)
  {
  }

  predicate IsUpper(c: char) { 'A' <= c <= 'Z' }
  predicate IsLower(c: char) { 'a' <= c <= 'z' }

  /** A cased character, in the sense of `str.title()`, restricted to ASCII letters. */
  predicate IsCased(c: char) { IsUpper(c) || IsLower(c) }

  function Upper(c: char): (u: char)
    ensures IsCased(u) == IsCased(c) && !IsLower(u) && Lower(u) == Lower(c)
    ensures !IsCased(c) ==> u == c
  {
    if IsLower(c) then (c as int - 32) as char else c
  }

  function Lower(c: char): (l: char)
    ensures IsCased(l) == IsCased(c) && !IsUpper(l)
    ensures !IsCased(c) ==> l == c
  {
    if IsUpper(c) then (c as int + 32) as char else c
  }

  /** The case `str.title()` gives `c`: lower after a cased character, upper otherwise. */
  function TitleChar(c: char, afterCased: bool): (t: char)
    ensures IsCased(t) == IsCased(c) && Lower(t) == Lower(c)
    ensures IsCased(c) ==> (IsUpper(t) <==> !afterCased)
    ensures !IsCased(c) ==> t == c
  {
    if afterCased then Lower(c) else Upper(c)
  }

  /** Whether the character before position `i` of `s` is cased. */
  predicate AfterCased(s: string, i: int)
    requires 0 <= i <= |s|
  {
    i > 0 && IsCased(s[i - 1])
  }

  /** `s.title()`: every word starts upper case, the rest of it is lower case. */
  function Title(s: string): (r: string)
    ensures |r| == |s|
    ensures forall i :: 0 <= i < |s| ==> IsCased(r[i]) == IsCased(s[i]) && Lower(r[i]) == Lower(s[i])
    ensures forall i :: 0 <= i < |s| && IsCased(s[i]) ==> (IsUpper(r[i]) <==> !AfterCased(s, i))
    ensures forall i :: 0 <= i < |s| && !IsCased(s[i]) ==> r[i] == s[i]
  {
    seq(|s|, i requires 0 <= i < |s| => TitleChar(s[i], AfterCased(s, i)))
  }

  lemma TitleIdempotent(s: string)
    ensures Title(Title(s)) == Title(s)
  {
    var t := Title(s);
    forall i | 0 <= i < |s| ensures Title(t)[i] == t[i] {
      assert AfterCased(t, i) == AfterCased(s, i);
    }
  }
}
