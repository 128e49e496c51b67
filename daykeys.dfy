/**
 * The per-day bucket key: a local calendar date written as
 * "month/day/year" in plain decimal, with no zero padding.
 */
module DayKeys {
  import opened Messages

  /** The decimal digit for `d`. */
  function DigitChar(d: nat): char
    requires d < 10
  {
    ('0' as int + d) as char
  }

  predicate IsDigit(c: char)
  {
    '0' <= c <= '9'
  }

  /** The number a string of decimal digits denotes. */
  function DecimalValue(s: string): nat
    requires forall i :: 0 <= i < |s| ==> IsDigit(s[i])
  {
    if s == [] then 0 else DecimalValue(s[..|s| - 1]) * 10 + DigitValue(s[|s| - 1])
  }

  /** The value of one decimal digit. */
  function DigitValue(c: char): nat
    requires IsDigit(c)
  {
    assert '0' as int <= c as int;
    c as int - '0' as int
  }

  /**
   * Decimal rendering of a natural number, as Python's `str` gives it: a
   * non-empty string of digits, without leading zero, that denotes `n`;
   * in particular it holds no '/'.
   */
  function NatToString(n: nat): (r: string)
    ensures |r| >= 1 && forall i :: 0 <= i < |r| ==> IsDigit(r[i])
    ensures r[0] == '0' ==> n == 0
    ensures DecimalValue(r) == n
    ensures '/' !in r
    decreases n
  {
    if n < 10 then [DigitChar(n)] else NatToString(n / 10) + [DigitChar(n % 10)]
  }

  /** The key a date is filed under: digits and exactly two '/' separators. */
  function DayString(d: CalendarDay): (r: string)
    ensures forall i :: 0 <= i < |r| ==> IsDigit(r[i]) || r[i] == '/'
    ensures multiset(r)['/'] == 2
  {
    NatToString(d.month) + "/" + NatToString(d.day) + "/" + NatToString(d.year)
  }

  /** Distinct numbers render differently: a rendering reads back as its number. */
  lemma NatToStringInjective(a: nat, b: nat)
    ensures NatToString(a) == NatToString(b) <==> a == b
  {
    if NatToString(a) == NatToString(b) {
      assert a == DecimalValue(NatToString(a)) == DecimalValue(NatToString(b)) == b;
    }
  }

  /** A key cut after its first field. */
  lemma Regroup(x: string, y: string, z: string)
    ensures x + "/" + y + "/" + z == x + "/" + (y + "/" + z)
  {
  }

  /** Cutting at the first '/' recovers both halves. */
  lemma SplitAtSlash(x: string, y: string, x': string, y': string)
    requires '/' !in x && '/' !in x'
    requires x + "/" + y == x' + "/" + y'
    ensures x == x' && y == y'
  {
    var s, t := x + "/" + y, x' + "/" + y';
    assert forall k :: 0 <= k < |x| ==> s[k] == x[k] != '/';
    assert forall k :: 0 <= k < |x'| ==> t[k] == x'[k] != '/';
    assert s[|x|] == '/' && t[|x'|] == '/';
    assert s[|x'|] == t[|x'|] && t[|x|] == s[|x|];
    assert x == s[..|x|] == x';
    assert y == s[|x| + 1..] == y';
  }

  /**
   * Two dates share a key exactly when they are the same date: the key
   * string loses nothing of the (month, day, year) triple.
   */
  lemma DayStringInjective(d1: CalendarDay, d2: CalendarDay)
    ensures DayString(d1) == DayString(d2) <==> d1 == d2
  {
    if DayString(d1) == DayString(d2) {
      var m1, a1, y1 := NatToString(d1.month), NatToString(d1.day), NatToString(d1.year);
      var m2, a2, y2 := NatToString(d2.month), NatToString(d2.day), NatToString(d2.year);
      Regroup(m1, a1, y1);
      Regroup(m2, a2, y2);
      SplitAtSlash(m1, a1 + "/" + y1, m2, a2 + "/" + y2);
      SplitAtSlash(a1, y1, a2, y2);
      NatToStringInjective(d1.month, d2.month);
      NatToStringInjective(d1.day, d2.day);
      NatToStringInjective(d1.year, d2.year);
    }
  }
}
