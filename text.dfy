/** Text helpers shared by the export and the chart builders: an Option type,
    Math.round and an ordering fact about products, decimal rendering of numbers the way JavaScript's String(number) renders
    exact values, their parsers, and Array.prototype.join / String.prototype.split
    on a single character. */
module Text {

  datatype Option<T> = None | Some(value: T)

  /** Math.round: halves round up. */
  function Round(x: real): int {
    (x + 0.5).Floor
  }

  /** Multiplying by a non-negative factor keeps the order. */
  lemma MulMonotone(a: int, b: int, c: int)
    requires a <= b && 0 <= c
    ensures a * c <= b * c
  {
    assert b * c - a * c == (b - a) * c;
  }

  /** Rounding a value between two integers stays between them. */
  lemma RoundWithin(x: real, lo: int, hi: int)
    requires lo as real <= x <= hi as real
    ensures lo <= Round(x) <= hi
  {
    var f := (x + 0.5).Floor;
    assert f as real <= x + 0.5 < f as real + 1.0;
    assert (lo as real) < (f + 1) as real;
    assert (f as real) < (hi + 1) as real;
  }

  /** Characters that a number formatted with toFixed can contain. */
  predicate IsNumChar(c: char) {
    '0' <= c <= '9' || c == '.' || c == '-'
  }

  predicate IsNumText(s: string) {
    forall i :: 0 <= i < |s| ==> IsNumChar(s[i])
  }

  /** Opaque output of Number.prototype.toFixed. */
  type NumText = s: string | IsNumText(s) witness "0"

  predicate IsDigit(c: char) {
    '0' <= c <= '9'
  }

  function DigitChar(d: nat): (c: char)
    requires d < 10
    ensures IsDigit(c)
  {
    "0123456789"[d]
  }

  function DigitValue(c: char): (d: nat)
    requires IsDigit(c)
    ensures d < 10
  {
    (c as int - '0' as int) as nat
  }

  lemma DigitRoundTrip(d: nat)
    requires d < 10
    ensures DigitValue(DigitChar(d)) == d
  {
    assert "0123456789"[d] as int == '0' as int + d by {
      if d == 0 {} else if d == 1 {} else if d == 2 {} else if d == 3 {} else if d == 4 {}
      else if d == 5 {} else if d == 6 {} else if d == 7 {} else if d == 8 {} else {}
    }
  }

  predicate AllDigits(s: string) {
    forall i :: 0 <= i < |s| ==> IsDigit(s[i])
  }

  /** Decimal rendering of a natural number, without leading zeros. */
  function NatText(n: nat): (s: string)
    ensures |s| >= 1 && AllDigits(s)
    ensures |s| > 1 ==> s[0] != '0'
  {
    if n < 10 then [DigitChar(n)] else NatText(n / 10) + [DigitChar(n % 10)]
  }

  /** Value of a non-empty digit string, most significant digit first. */
  function DigitsValue(s: string): nat
    requires |s| >= 1 && AllDigits(s)
  {
    if |s| == 1 then DigitValue(s[0])
    else DigitsValue(s[..|s| - 1]) * 10 + DigitValue(s[|s| - 1])
  }

  function ParseNat(s: string): Option<nat> {
    if |s| >= 1 && AllDigits(s) then Some(DigitsValue(s)) else None
  }

  lemma {:induction false} NatTextRoundTrip(n: nat)
    ensures ParseNat(NatText(n)) == Some(n)
  {
    var s := NatText(n);
    if n < 10 {
      DigitRoundTrip(n);
    } else {
      NatTextRoundTrip(n / 10);
      DigitRoundTrip(n % 10);
      assert s[..|s| - 1] == NatText(n / 10);
      assert s[|s| - 1] == DigitChar(n % 10);
    }
  }

  /** Decimal rendering of an integer: a minus sign before negative values. */
  function IntText(i: int): (s: string)
    ensures |s| >= 1
    ensures IsNumText(s)
  {
    if i < 0 then "-" + NatText(-i) else NatText(i)
  }

  function ParseInt(s: string): (r: Option<int>) {
    if |s| >= 1 && s[0] == '-' then
      var magnitude := ParseNat(s[1..]);
      if magnitude.None? || magnitude.value == 0 then None
      else Some(0 - magnitude.value)
    else
      var magnitude := ParseNat(s);
      if magnitude.None? then None else Some(magnitude.value as int)
  }

  lemma IntTextRoundTrip(i: int)
    ensures ParseInt(IntText(i)) == Some(i)
  {
    if i < 0 {
      NegativeTextRoundTrip(i);
    } else {
      UnsignedTextRoundTrip(i);
    }
  }

  lemma NegativeTextRoundTrip(i: int)
    requires i < 0
    ensures ParseInt(IntText(i)) == Some(i)
  {
    var t := "-" + NatText(-i);
    MinusDigitsRoundTrip(-i);
    assert IntText(i) == t;
  }

  lemma MinusDigitsRoundTrip(n: nat)
    requires n > 0
    ensures ParseInt("-" + NatText(n)) == Some(0 - n)
  {
    NatTextRoundTrip(n);
    assert ("-" + NatText(n))[1..] == NatText(n);
  }

  lemma UnsignedTextRoundTrip(i: int)
    requires i >= 0
    ensures ParseInt(IntText(i)) == Some(i)
  {
    NatTextRoundTrip(i);
    assert IntText(i) == NatText(i);
    assert IsDigit(NatText(i)[0]);
  }

  /** Rendering of the exact value c/100 as String(number) shows it:
      no fractional part when it is whole, otherwise one or two decimals
      with no trailing zero. */
  function HundredthsText(c: nat): (s: string)
    ensures IsNumText(s)
  {
    var whole := NatText(c / 100);
    var frac := c % 100;
    if frac == 0 then whole
    else if frac % 10 == 0 then whole + "." + [DigitChar(frac / 10)]
    else whole + "." + [DigitChar(frac / 10), DigitChar(frac % 10)]
  }

  function ParseHundredths(s: string): Option<nat> {
    if '.' !in s then
      match ParseNat(s)
      case Some(n) => Some(n * 100)
      case None => None
    else
      var parts := Split(s, '.');
      if |parts| != 2 then None
      else
        match ParseNat(parts[0])
        case None => None
        case Some(w) =>
          var f := parts[1];
          if |f| == 1 && IsDigit(f[0]) && f[0] != '0' then Some(w * 100 + DigitValue(f[0]) * 10)
          else if |f| == 2 && IsDigit(f[0]) && IsDigit(f[1]) && f[1] != '0' then
            Some(w * 100 + DigitValue(f[0]) * 10 + DigitValue(f[1]))
          else None
  }

  lemma HundredthsRoundTrip(c: nat)
    ensures ParseHundredths(HundredthsText(c)) == Some(c)
  {
    if c % 100 == 0 {
      WholeHundredths(c);
    } else if c % 100 % 10 == 0 {
      OneDecimalHundredths(c);
    } else {
      TwoDecimalsHundredths(c);
    }
  }

  lemma WholeHundredths(c: nat)
    requires c % 100 == 0
    ensures ParseHundredths(HundredthsText(c)) == Some(c)
  {
    WholeRoundTrip(c / 100);
  }

  lemma OneDecimalHundredths(c: nat)
    requires c % 100 != 0 && c % 100 % 10 == 0
    ensures ParseHundredths(HundredthsText(c)) == Some(c)
  {
    OneDecimalRoundTrip(c / 100, c % 100 / 10);
  }

  lemma TwoDecimalsHundredths(c: nat)
    requires c % 100 % 10 != 0
    ensures ParseHundredths(HundredthsText(c)) == Some(c)
  {
    TwoDecimalsRoundTrip(c / 100, c % 100 / 10, c % 100 % 10);
  }

  lemma WholeRoundTrip(w: nat)
    ensures ParseHundredths(NatText(w)) == Some(w * 100)
  {
    NatTextRoundTrip(w);
    assert '.' !in NatText(w);
  }

  lemma OneDecimalRoundTrip(w: nat, d: nat)
    requires 1 <= d < 10
    ensures ParseHundredths(NatText(w) + "." + [DigitChar(d)]) == Some(w * 100 + d * 10)
  {
    var whole, tail := NatText(w), [DigitChar(d)];
    NatTextRoundTrip(w);
    DigitRoundTrip(d);
    assert '.' !in whole;
    SplitAroundSeparator(whole, tail, '.');
    SplitNoSeparator(tail, '.');
    assert whole + "." + tail == whole + ['.'] + tail;
  }

  lemma TwoDecimalsRoundTrip(w: nat, d: nat, e: nat)
    requires d < 10 && 1 <= e < 10
    ensures ParseHundredths(NatText(w) + "." + [DigitChar(d), DigitChar(e)]) == Some(w * 100 + d * 10 + e)
  {
    var whole, tail := NatText(w), [DigitChar(d), DigitChar(e)];
    NatTextRoundTrip(w);
    DigitRoundTrip(d);
    DigitRoundTrip(e);
    assert '.' !in whole;
    assert '.' !in tail;
    SplitAroundSeparator(whole, tail, '.');
    SplitNoSeparator(tail, '.');
    assert whole + "." + tail == whole + ['.'] + tail;
  }

  /** Array.prototype.join with a one-character separator. */
  function Join(parts: seq<string>, sep: char): string {
    if |parts| == 0 then ""
    else if |parts| == 1 then parts[0]
    else parts[0] + [sep] + Join(parts[1..], sep)
  }

  /** String.prototype.split on a one-character separator: the pieces
      between the separators, so there is always one more piece than
      there are separators. */
  function Split(s: string, sep: char): (r: seq<string>)
    ensures |r| >= 1
  {
    if |s| == 0 then [""]
    else
      var rest := Split(s[1..], sep);
      if s[0] == sep then [""] + rest
      else [[s[0]] + rest[0]] + rest[1..]
  }

  predicate NoneContains(parts: seq<string>, sep: char) {
    forall k :: 0 <= k < |parts| ==> sep !in parts[k]
  }

  lemma {:induction false} SplitNoSeparator(s: string, sep: char)
    requires sep !in s
    ensures Split(s, sep) == [s]
  {
    if |s| > 0 {
      SplitNoSeparator(s[1..], sep);
      assert [s[0]] + s[1..] == s;
    }
  }

  lemma {:induction false} SplitAroundSeparator(a: string, b: string, sep: char)
    requires sep !in a
    ensures Split(a + [sep] + b, sep) == [a] + Split(b, sep)
  {
    if |a| == 0 {
      assert a + [sep] + b == [sep] + b;
      assert ([sep] + b)[1..] == b;
    } else {
      var s := a + [sep] + b;
      assert s[1..] == a[1..] + [sep] + b;
      SplitAroundSeparator(a[1..], b, sep);
      assert [a[0]] + a[1..] == a;
    }
  }

  /** Splitting a joined list on its separator gives the list back when no
      piece contains the separator. */
  lemma {:induction false} SplitJoin(parts: seq<string>, sep: char)
    requires |parts| >= 1
    requires NoneContains(parts, sep)
    ensures Split(Join(parts, sep), sep) == parts
  {
    if |parts| == 1 {
      SplitNoSeparator(parts[0], sep);
    } else {
      SplitJoin(parts[1..], sep);
      SplitAroundSeparator(parts[0], Join(parts[1..], sep), sep);
      assert [parts[0]] + parts[1..] == parts;
    }
  }

  /** A joined list contains the separator only where it was put, so a join
      of pieces free of a second character is free of it too. */
  lemma {:induction false} JoinAvoids(parts: seq<string>, sep: char, c: char)
    requires c != sep
    requires NoneContains(parts, c)
    ensures c !in Join(parts, sep)
  {
    if |parts| > 1 {
      JoinAvoids(parts[1..], sep, c);
    }
  }
}
