/**
 * Python's `str()` of an `int`, as used for the tile indices and the zoom
 * placed in a tile URL and for the names of the saved mosaics, together
 * with a reader that recovers the integer from the front of a string.
 */
module Decimal {
  import opened Wrappers

  predicate IsDigit(c: char) {
    '0' <= c <= '9'
  }

  predicate AllDigits(s: string) {
    forall k :: 0 <= k < |s| ==> IsDigit(s[k])
  }

  function DigitChar(d: nat): (c: char)
    requires d < 10
    ensures IsDigit(c) && c as int - '0' as int == d
  {
    ('0' as int + d) as char
  }

  function DigitValue(c: char): (d: nat)
    requires IsDigit(c)
    ensures d < 10 && DigitChar(d) == c
  {
    c as int - '0' as int
  }

  /** `str(n)` for `n >= 0`: decimal digits, most significant first, no leading zero. */
  function NatToString(n: nat): (s: string)
    ensures |s| >= 1 && AllDigits(s)
    ensures s[0] == '0' <==> n == 0
    decreases n
  {
    if n < 10 then [DigitChar(n)] else NatToString(n / 10) + [DigitChar(n % 10)]
  }

  /** `str(i)` for any integer: a minus sign in front of a negative number. */
  function IntToString(i: int): (s: string)
    ensures |s| >= 1
    ensures i < 0 <==> s[0] == '-'
  {
    if i < 0 then "-" + NatToString(-i) else NatToString(i)
  }

  /** The number a string of decimal digits denotes. */
  function DigitsValue(s: string): nat
    requires AllDigits(s)
  {
    if s == [] then 0 else 10 * DigitsValue(s[..|s| - 1]) + DigitValue(s[|s| - 1])
  }

  /** The length of the longest run of digits at the front of `s`. */
  function DigitRun(s: string): (k: nat)
    ensures k <= |s| && AllDigits(s[..k])
    ensures k < |s| ==> !IsDigit(s[k])
  {
    if s == [] || !IsDigit(s[0]) then 0
    else
      var k := 1 + DigitRun(s[1..]);
      assert s[..k] == [s[0]] + s[1..][..k - 1];
      k
  }

  /**
   * Reads an optionally signed decimal integer from the front of `s`,
   * returning it with the rest of the string; None when `s` does not start
   * with one.
   */
  function ReadInt(s: string): Option<(int, string)>
  {
    if |s| > 0 && s[0] == '-' then
      var k := DigitRun(s[1..]);
      var v: int := 0 - DigitsValue(s[1..][..k]) as int;
      if k == 0 then None else Some((v, s[1..][k..]))
    else
      var k := DigitRun(s);
      var v: int := DigitsValue(s[..k]);
      if k == 0 then None else Some((v, s[k..]))
  }

  /** `s` with the prefix `p` removed, or None when `s` does not start with `p`. */
  function StripPrefix(p: string, s: string): (r: Option<string>)
    ensures r.Some? <==> p <= s
    ensures r.Some? ==> s == p + r.value
  {
    if p <= s then Some(s[|p|..]) else None
  }

  /** Stripping p from p + t leaves t. */
  lemma StripPrefixOf(p: string, t: string)
    ensures StripPrefix(p, p + t) == Some(t)
  {
    assert p <= p + t;
    assert (p + t)[|p|..] == t;
  }

  lemma {:induction false} NatToStringValue(n: nat)
    ensures DigitsValue(NatToString(n)) == n
    decreases n
  {
    var s := NatToString(n);
    if n >= 10 {
      NatToStringValue(n / 10);
      assert s[..|s| - 1] == NatToString(n / 10);
    }
  }

  lemma {:induction false} DigitRunOfDigits(d: string, t: string)
    requires AllDigits(d)
    requires t == [] || !IsDigit(t[0])
    ensures DigitRun(d + t) == |d|
  {
    if d != [] {
      assert (d + t)[1..] == d[1..] + t;
      DigitRunOfDigits(d[1..], t);
    }
  }

  /** Reading back what `str()` wrote gives the integer, up to the first non-digit after it. */
  lemma ReadIntToString(i: int, t: string)
    requires t == [] || !IsDigit(t[0])
    ensures ReadInt(IntToString(i) + t) == Some((i, t))
  {
    var n: nat := if i < 0 then -i else i;
    var d := NatToString(n);
    NatToStringValue(n);
    DigitRunOfDigits(d, t);
    var s := IntToString(i) + t;
    if i < 0 {
      assert s[1..] == d + t;
      assert (d + t)[..|d|] == d && (d + t)[|d|..] == t;
    } else {
      assert s == d + t && IsDigit(d[0]);
      assert (d + t)[..|d|] == d && (d + t)[|d|..] == t;
    }
  }

  /** `str()` never gives the same text for two different integers. */
  lemma IntToStringInjective(i: int, j: int)
    ensures IntToString(i) == IntToString(j) ==> i == j
  {
    ReadIntToString(i, []);
    ReadIntToString(j, []);
    assert IntToString(i) + [] == IntToString(i);
    assert IntToString(j) + [] == IntToString(j);
  }
}
