/** Character-level helpers shared by the model: decimal rendering and parsing of integers as Java's
    `Long.toString`, `Long.parseLong`, `Integer.parseInt` and `String.format("%0Nd")` do them, ASCII
    case conversion for `toUpperCase(Locale.ENGLISH)` and `equalsIgnoreCase`, and substring search. */
module Text {
  import opened Results

  predicate IsDigit(c: char) { '0' <= c <= '9' }

  predicate AllDigits(s: string) { forall i :: 0 <= i < |s| ==> IsDigit(s[i]) }

  function DigitValue(c: char): (d: nat)
    requires IsDigit(c)
    ensures d < 10
  {
    (c as int) - ('0' as int)
  }

  function DigitChar(d: nat): (c: char)
    requires d < 10
    ensures IsDigit(c) && DigitValue(c) == d
  {
    (('0' as int) + d) as char
  }

  /** The decimal digits of `n`, most significant first, without leading zeros. */
  function NatToString(n: nat): (s: string)
    ensures |s| >= 1 && AllDigits(s)
    ensures n < 10 <==> |s| == 1
    ensures |s| == 1 || s[0] != '0'
  {
    if n < 10 then [DigitChar(n)] else NatToString(n / 10) + [DigitChar(n % 10)]
  }

  /** `Long.toString(n)` / `String.valueOf(n)`: a minus sign for negative numbers, then the digits. */
  function IntToString(n: int): (s: string)
    ensures |s| >= 1
    ensures n < 0 <==> s[0] == '-'
  {
    if n < 0 then "-" + NatToString(-n) else NatToString(n)
  }

  /** The value of a string of decimal digits, read most significant first. */
  function DigitsValue(s: string): nat
    requires AllDigits(s)
  {
    if s == [] then 0 else DigitsValue(s[..|s| - 1]) * 10 + DigitValue(s[|s| - 1])
  }

  lemma {:induction false} DigitsValueOfNatToString(n: nat)
    ensures DigitsValue(NatToString(n)) == n
  {
    if n >= 10 {
      var s := NatToString(n);
      assert s[..|s| - 1] == NatToString(n / 10);
      DigitsValueOfNatToString(n / 10);
    }
  }

  function Zeros(k: nat): (s: string)
    ensures |s| == k && AllDigits(s)
    ensures forall i :: 0 <= i < k ==> s[i] == '0'
  {
    if k == 0 then "" else "0" + Zeros(k - 1)
  }

  /** Leading zeros do not change the value of a digit string. */
  lemma {:induction false} DigitsValueLeadingZeros(k: nat, s: string)
    requires AllDigits(s)
    ensures DigitsValue(Zeros(k) + s) == DigitsValue(s)
    decreases |s|
  {
    if s == [] {
      ZerosValue(k);
      assert Zeros(k) + s == Zeros(k);
    } else {
      var t := Zeros(k) + s;
      assert t[..|t| - 1] == Zeros(k) + s[..|s| - 1];
      DigitsValueLeadingZeros(k, s[..|s| - 1]);
    }
  }

  lemma {:induction false} ZerosValue(k: nat)
    ensures DigitsValue(Zeros(k)) == 0
  {
    if k > 0 {
      var z := Zeros(k);
      assert z[..k - 1] == Zeros(k - 1);
      ZerosValue(k - 1);
    }
  }

  /** Java's `Long.parseLong` (range [-2^63, 2^63 - 1]) and `Integer.parseInt` (range
      [-2^31, 2^31 - 1]): an optional sign, at least one digit, nothing else, and a value in range;
      `None` stands for the `NumberFormatException`. */
  function ParseInteger(s: string, lo: int, hi: int): (r: Option<int>)
    ensures r.Some? ==> lo <= r.value <= hi
    ensures s == [] ==> r.None?
  {
    if s == [] then None
    else ParseDigits(s[0] == '-', if s[0] == '-' || s[0] == '+' then s[1..] else s, lo, hi)
  }

  /** The digits after the sign: at least one, nothing but digits, and a value in range. */
  function ParseDigits(negative: bool, digits: string, lo: int, hi: int): (r: Option<int>)
    ensures r.Some? ==> lo <= r.value <= hi
  {
    if digits == [] || !AllDigits(digits) then None
    else
      var v := if negative then -(DigitsValue(digits) as int) else DigitsValue(digits) as int;
      if lo <= v <= hi then Some(v) else None
  }

  const LongMin: int := -0x8000_0000_0000_0000
  const LongMax: int := 0x7FFF_FFFF_FFFF_FFFF
  const IntMin: int := -0x8000_0000
  const IntMax: int := 0x7FFF_FFFF

  function ParseLong(s: string): Option<int> { ParseInteger(s, LongMin, LongMax) }

  function ParseInt(s: string): Option<int> { ParseInteger(s, IntMin, IntMax) }

  /** A sign (or none) followed by a non-empty digit string parses to its signed value. */
  lemma ParseSigned(negative: bool, digits: string, lo: int, hi: int)
    requires digits != [] && AllDigits(digits)
    ensures ParseInteger((if negative then "-" else "") + digits, lo, hi) == ParseDigits(negative, digits, lo, hi)
  {
    assert IsDigit(digits[0]);
    if negative {
      var s := "-" + digits;
      assert s[0] == '-' && s[1..] == digits;
    } else {
      assert "" + digits == digits;
    }
  }

  /** Parsing what `IntToString` renders gives the number back, when it is in range. */
  lemma ParseIntToString(n: int, lo: int, hi: int)
    requires lo <= n <= hi
    ensures ParseInteger(IntToString(n), lo, hi) == Some(n)
  {
    var m: nat := if n < 0 then -n else n;
    DigitsValueOfNatToString(m);
    ParseSigned(n < 0, NatToString(m), lo, hi);
  }

  /** The left zero-padding of Java's `%0<width>d`: a minus sign first, then the digits padded with
      zeros so that the whole string is at least `width` long. */
  function ZeroPad(n: int, width: nat): (s: string)
    ensures |s| >= width
    ensures |s| == width <==> |IntToString(n)| <= width
  {
    var sign := if n < 0 then "-" else "";
    sign + PadDigits(NatToString(if n < 0 then -n else n), width - |sign|)
  }

  /** Digits with zeros in front, up to `room` characters. */
  function PadDigits(digits: string, room: int): (s: string)
    requires AllDigits(digits)
    ensures AllDigits(s) && DigitsValue(s) == DigitsValue(digits)
    ensures |s| == if |digits| < room then room else |digits|
  {
    if |digits| < room then
      DigitsValueLeadingZeros(room - |digits|, digits);
      Zeros(room - |digits|) + digits
    else digits
  }

  /** Zero padding keeps the value: the padded field parses back to the number. */
  lemma ParseZeroPad(n: int, width: nat, lo: int, hi: int)
    requires lo <= n <= hi
    ensures ParseInteger(ZeroPad(n, width), lo, hi) == Some(n)
  {
    var m: nat := if n < 0 then -n else n;
    var padded := PadDigits(NatToString(m), width - if n < 0 then 1 else 0);
    DigitsValueOfNatToString(m);
    ParseSigned(n < 0, padded, lo, hi);
    assert ZeroPad(n, width) == (if n < 0 then "-" else "") + padded;
  }

  function UpperChar(c: char): (u: char)
    ensures !('a' <= u <= 'z')
  {
    if 'a' <= c <= 'z' then (c as int - 'a' as int + 'A' as int) as char else c
  }

  /** `toUpperCase(Locale.ENGLISH)` on ASCII letters; other characters are kept. */
  function ToUpper(s: string): (u: string)
    ensures |u| == |s|
    ensures forall i :: 0 <= i < |s| ==> u[i] == UpperChar(s[i])
  {
    if s == [] then [] else [UpperChar(s[0])] + ToUpper(s[1..])
  }

  /** `equalsIgnoreCase` on ASCII strings: the same length, and equal characters up to case. */
  function EqualsIgnoreCase(a: string, b: string): (r: bool)
    ensures r <==> |a| == |b| && forall i :: 0 <= i < |a| ==> UpperChar(a[i]) == UpperChar(b[i])
  {
    ToUpper(a) == ToUpper(b)
  }

  predicate EndsWith(s: string, suffix: string) { |suffix| <= |s| && s[|s| - |suffix|..] == suffix }

  /** `s.contains(t)`: some window of `s` is `t`. */
  predicate Contains(s: string, t: string)
  {
    exists i :: 0 <= i <= |s| && t <= s[i..]
  }

  lemma ContainsMiddle(a: string, t: string, b: string)
    ensures Contains(a + t + b, t)
  {
    var s := a + t + b;
    assert s[|a|..] == t + b;
  }

  lemma ContainsSuffix(a: string, t: string)
    ensures Contains(a + t, t)
  {
    assert (a + t)[|a|..] == t;
  }

  lemma ContainsTransitive(s: string, t: string, u: string)
    requires Contains(s, t) && Contains(t, u)
    ensures Contains(s, u)
  {
    var i :| 0 <= i <= |s| && t <= s[i..];
    var j :| 0 <= j <= |t| && u <= t[j..];
    assert t[j..] <= s[i + j..];
    assert u <= s[i + j..];
  }

  /** `String.join(sep, parts)`. */
  function Join(parts: seq<string>, sep: string): string
  {
    if parts == [] then ""
    else if |parts| == 1 then parts[0]
    else parts[0] + sep + Join(parts[1..], sep)
  }
}
