/** The string operations the game relies on: `startsWith`, `contains`,
    `Integer.parseInt` and the decimal rendering of an `int` that string
    concatenation performs. Only ASCII digits are modelled. */
module Text {
  import opened Wrappers

  /** `s.startsWith(p)` */
  predicate StartsWith(s: string, p: string) {
    |p| <= |s| && s[..|p|] == p
  }

  /** `t.contains(s)`: `s` occurs somewhere inside `t` (the empty string
      occurs in every string). */
  predicate Contains(t: string, s: string)
    decreases |t|
  {
    StartsWith(t, s) || (|t| > 0 && Contains(t[1..], s))
  }

  predicate IsDigit(c: char) {
    '0' <= c <= '9'
  }

  predicate AllDigits(s: string) {
    forall i :: 0 <= i < |s| ==> IsDigit(s[i])
  }

  function DigitValue(c: char): (d: nat)
    requires IsDigit(c)
    ensures d < 10
  {
    (c as int) - ('0' as int)
  }

  function DigitChar(d: nat): (c: char)
    requires d < 10
    ensures IsDigit(c) && DigitValue(c) == d
  {
    ('0' as int + d) as char
  }

  /** Value of a string of decimal digits, most significant first. */
  function DigitsValue(s: string): nat
    requires AllDigits(s)
    decreases |s|
  {
    if s == [] then 0 else DigitsValue(s[..|s| - 1]) * 10 + DigitValue(s[|s| - 1])
  }

  const IntMin: int := -0x8000_0000
  const IntMax: int := 0x7fff_ffff

  predicate InInt32(n: int) {
    IntMin <= n <= IntMax
  }

  /** `Integer.parseInt(s)`: an optional leading sign followed by at least one
      digit, with a value that fits a 32-bit `int`; anything else throws
      NumberFormatException, which is `None` here. */
  function ParseInt(s: string): (r: Option<int>)
    ensures r.Some? ==> InInt32(r.value)
    ensures r.Some? ==> |s| > 0 && AllDigits(s[1..])
    ensures r.Some? && r.value < 0 ==> s[0] == '-'
    ensures r.Some? && s[0] != '-' && s[0] != '+' ==> AllDigits(s) && r.value == DigitsValue(s)
    ensures r.Some? && s[0] == '-' ==> r.value == 0 - (DigitsValue(s[1..]) as int)
    ensures r.Some? && s[0] == '+' ==> r.value == DigitsValue(s[1..])
    ensures r.Some? <==>
      && |s| > 0
      && var body := if s[0] == '-' || s[0] == '+' then s[1..] else s;
      && |body| > 0 && AllDigits(body)
      && InInt32(if s[0] == '-' then 0 - (DigitsValue(body) as int) else DigitsValue(body))
  {
    if |s| == 0 then None
    else
      var signed := s[0] == '-' || s[0] == '+';
      var body := if signed then s[1..] else s;
      if |body| == 0 || !AllDigits(body) then None
      else
        var v: int := if s[0] == '-' then 0 - (DigitsValue(body) as int) else DigitsValue(body);
        if InInt32(v) then Some(v) else None
  }

  /** Decimal form of a natural number, no leading zeros. */
  function ShowNat(n: nat): (s: string)
    ensures |s| > 0 && AllDigits(s)
    decreases n
  {
    if n < 10 then [DigitChar(n)] else ShowNat(n / 10) + [DigitChar(n % 10)]
  }

  /** Decimal form of an integer, as `"" + n` produces it in Java. */
  function ShowInt(n: int): (s: string)
    ensures |s| > 0
    ensures n >= 0 <==> s[0] != '-'
    ensures n >= 0 ==> IsDigit(s[0])
  {
    if n < 0 then "-" + ShowNat(-n) else ShowNat(n)
  }

  lemma {:induction false} DigitsOfShowNat(n: nat)
    ensures DigitsValue(ShowNat(n)) == n
    decreases n
  {
    var s := ShowNat(n);
    if n >= 10 {
      DigitsOfShowNat(n / 10);
      assert s[..|s| - 1] == ShowNat(n / 10);
    }
  }

  /** Rendering an `int` and parsing it back gives the same `int`. */
  lemma ParseShowRoundTrip(n: int)
    requires InInt32(n)
    ensures ParseInt(ShowInt(n)) == Some(n)
  {
    if n < 0 {
      DigitsOfShowNat(-n);
      assert ShowInt(n)[1..] == ShowNat(-n);
    } else {
      DigitsOfShowNat(n);
    }
  }

  /** A string whose first character never occurs in `t` is not inside `t`. */
  lemma {:induction false} NotContainedFirst(t: string, s: string)
    requires |s| > 0 && s[0] !in t
    ensures !Contains(t, s)
    decreases |t|
  {
    if |t| > 0 {
      NotContainedFirst(t[1..], s);
    }
  }

  /** A string with a prefix stripped off gives back exactly the remainder. */
  lemma StripPrefix(p: string, r: string)
    ensures StartsWith(p + r, p) && (p + r)[|p|..] == r
  {
    assert (p + r)[..|p|] == p;
  }
}
