/**
 * The ordinal label `(i + 1).toString().padStart(2, '0')` and its inverse,
 * reading the leading digits of a name back as a number.
 */
module Ordinal {
  import opened Text

  predicate AllDigits(s: string) {
    forall i :: 0 <= i < |s| ==> IsDigit(s[i])
  }

  function DigitChar(d: nat): (c: char)
    requires d < 10
    ensures IsDigit(c)
  {
    (48 + d) as char
  }

  function DigitValue(c: char): (d: nat)
    requires IsDigit(c)
    ensures d < 10 && DigitChar(d) == c
  {
    c as int - 48
  }

  /** `Number.prototype.toString()` of a non-negative integer: base ten,
      without leading zeros. */
  function Decimal(n: nat): (r: string)
    ensures 1 <= |r| && AllDigits(r)
    ensures |r| == 1 <==> n < 10
    ensures n > 0 ==> r[0] != '0'
    decreases n
  {
    if n < 10 then [DigitChar(n)] else Decimal(n / 10) + [DigitChar(n % 10)]
  }

  /** The number a string of decimal digits denotes; leading zeros are allowed. */
  function DecimalValue(s: string): nat
    requires AllDigits(s)
  {
    if s == [] then 0 else DecimalValue(s[..|s| - 1]) * 10 + DigitValue(s[|s| - 1])
  }

  /** Reading the decimal rendering of `n` gives back `n`. */
  lemma {:induction false} DecimalRoundTrip(n: nat)
    ensures DecimalValue(Decimal(n)) == n
  {
    if n >= 10 {
      var r := Decimal(n);
      assert r[..|r| - 1] == Decimal(n / 10);
      DecimalRoundTrip(n / 10);
    }
  }

  /** A leading `0` does not change the value of a digit string. */
  lemma {:induction false} LeadingZeroIgnored(s: string)
    requires AllDigits(s)
    ensures AllDigits("0" + s) && DecimalValue("0" + s) == DecimalValue(s)
  {
    if s != [] {
      assert ("0" + s)[..|s|] == "0" + s[..|s| - 1];
      LeadingZeroIgnored(s[..|s| - 1]);
    }
  }

  /** `String.prototype.padStart(width, fill)` with a one-character `fill`. */
  function PadStart(s: string, width: nat, fill: char): (r: string)
    ensures |r| == if |s| < width then width else |s|
    ensures r[|r| - |s|..] == s
    ensures forall i :: 0 <= i < |r| - |s| ==> r[i] == fill
  {
    if |s| < width then seq(width - |s|, _ => fill) + s else s
  }

  /** The label of the card at zero-based position `i`. */
  function Label(i: nat): string {
    PadStart(Decimal(i + 1), 2, '0')
  }

  /** The label is the decimal of `i + 1`, with one `0` in front exactly when
      `i + 1` has a single digit; it is never truncated and holds only digits. */
  lemma LabelShape(i: nat)
    ensures Label(i) == if i + 1 < 10 then "0" + Decimal(i + 1) else Decimal(i + 1)
    ensures |Label(i)| == if |Decimal(i + 1)| < 2 then 2 else |Decimal(i + 1)|
    ensures AllDigits(Label(i))
  {
    var d := Decimal(i + 1);
    if i + 1 < 10 {
      assert Label(i) == [Label(i)[0]] + Label(i)[1..];
    }
  }

  /** Reading a label back gives the one-based position: labels are distinct. */
  lemma LabelValue(i: nat)
    ensures AllDigits(Label(i)) && DecimalValue(Label(i)) == i + 1
  {
    LabelShape(i);
    DecimalRoundTrip(i + 1);
    if i + 1 < 10 {
      LeadingZeroIgnored(Decimal(i + 1));
    }
  }

  /** The longest leading run of ASCII digits. */
  function LeadingDigits(s: string): (r: string)
    ensures r <= s && AllDigits(r)
    ensures r == s || !IsDigit(s[|r|])
  {
    if s != [] && IsDigit(s[0]) then [s[0]] + LeadingDigits(s[1..]) else []
  }

  /** The number written at the start of a name, 0 when there is none. */
  function OrdinalOf(name: string): nat {
    DecimalValue(LeadingDigits(name))
  }

  /** The leading digits of `d + rest` are `d` when `rest` does not start with a digit. */
  lemma {:induction false} LeadingDigitsOfConcat(d: string, rest: string)
    requires AllDigits(d)
    requires rest == [] || !IsDigit(rest[0])
    ensures LeadingDigits(d + rest) == d
  {
    if d != [] {
      assert (d + rest)[0] == d[0];
      assert (d + rest)[1..] == d[1..] + rest;
      LeadingDigitsOfConcat(d[1..], rest);
      assert d == [d[0]] + d[1..];
    } else {
      assert d + rest == rest;
    }
  }
}
