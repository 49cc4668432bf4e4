/**
 * Colour serialization: channels scaled to 0..255 and rounded as
 * `Math.round` does, alpha printed with two decimals as `toFixed(2)` does,
 * and the `rgb(...)`/`rgba(...)` text built from them. Numbers are exact
 * reals, so rounding is stated on the exact value.
 */
module Colors {
  import opened Parser

  /** `Math.round`: the nearest integer, halves rounded up. */
  function Round(x: real): (n: int)
    ensures n as real - 0.5 <= x < n as real + 0.5
  {
    (x + 0.5).Floor
  }

  predicate IsDigit(c: char)
  {
    '0' <= c <= '9'
  }

  function DigitChar(d: nat): (c: char)
    requires d < 10
    ensures IsDigit(c)
  {
    "0123456789"[d]
  }

  function DigitValue(c: char): nat
    requires IsDigit(c)
  {
    (c as int - '0' as int) as nat
  }

  /** The decimal digits of `n`, most significant first, without leading zeros. */
  function NatToString(n: nat): (s: string)
    ensures |s| >= 1 && IsDigits(s)
    ensures |s| > 1 ==> s[0] != '0'
  {
    if n < 10 then [DigitChar(n)]
    else
      var prefix := NatToString(n / 10);
      var s := prefix + [DigitChar(n % 10)];
      assert forall i :: 0 <= i < |prefix| ==> s[i] == prefix[i];
      s
  }

  /** The number a string of decimal digits denotes, read most significant first. */
  function DecimalValue(s: string): nat
    requires IsDigits(s)
  {
    if s == [] then 0 else DecimalValue(s[..|s| - 1]) * 10 + DigitValue(s[|s| - 1])
  }

  /** An optional minus sign followed by one or more decimal digits. */
  predicate IsIntText(s: string)
  {
    |s| >= 1 && (if s[0] == '-' then |s| >= 2 && IsDigits(s[1..]) else IsDigits(s))
  }

  predicate IsDigits(s: string)
  {
    forall i :: 0 <= i < |s| ==> IsDigit(s[i])
  }

  /** The integer printed in a template literal: an optional minus sign, then the digits of its magnitude. */
  function IntToString(n: int): (s: string)
    ensures IsIntText(s)
    ensures (s[0] == '-') <==> n < 0
  {
    if n < 0 then
      var d := NatToString(-n);
      assert ("-" + d)[1..] == d;
      "-" + d
    else NatToString(n)
  }

  /** Reads a printed integer back. */
  function ParseInt(s: string): int
    requires IsIntText(s)
  {
    if s[0] == '-' then -(DecimalValue(s[1..]) as int) else DecimalValue(s)
  }

  lemma DigitRoundTrip(d: nat)
    requires d < 10
    ensures DigitValue(DigitChar(d)) == d
  {
  }

  /** Printing a natural number and reading the digits back gives the number. */
  lemma {:induction false} NatToStringRoundTrip(n: nat)
    ensures DecimalValue(NatToString(n)) == n
  {
    var s := NatToString(n);
    if n < 10 {
      DigitRoundTrip(n);
      assert s[..0] == [];
    } else {
      NatToStringRoundTrip(n / 10);
      DigitRoundTrip(n % 10);
      assert s[..|s| - 1] == NatToString(n / 10);
    }
  }

  /** A minus sign before digits reads as the negated digits. */
  lemma ParseNegative(d: string)
    requires |d| >= 1 && IsDigits(d)
    ensures IsIntText("-" + d) && ParseInt("-" + d) == -(DecimalValue(d) as int)
  {
    assert ("-" + d)[0] == '-';
    assert ("-" + d)[1..] == d;
  }

  /** Printing an integer and reading it back gives the integer. */
  lemma IntToStringRoundTrip(n: int)
    ensures ParseInt(IntToString(n)) == n
  {
    if n < 0 {
      var m: nat := -n;
      var d := NatToString(m);
      NatToStringRoundTrip(m);
      ParseNegative(d);
      assert IntToString(n) == "-" + d;
    } else {
      var s := NatToString(n);
      NatToStringRoundTrip(n);
      assert IntToString(n) == s && s[0] != '-';
    }
  }

  function Zeros(k: nat): (z: string)
    ensures |z| == k
    ensures forall i :: 0 <= i < k ==> z[i] == '0'
  {
    if k == 0 then [] else Zeros(k - 1) + "0"
  }

  lemma {:induction false} LeadingZeros(k: nat, m: string)
    requires IsDigits(m)
    ensures IsDigits(Zeros(k) + m)
    ensures DecimalValue(Zeros(k) + m) == DecimalValue(m)
    decreases |m|, k
  {
    var s := Zeros(k) + m;
    if m == [] {
      if k > 0 {
        assert s[..|s| - 1] == Zeros(k - 1) + [];
        LeadingZeros(k - 1, []);
      }
    } else {
      assert s[..|s| - 1] == Zeros(k) + m[..|m| - 1];
      LeadingZeros(k, m[..|m| - 1]);
    }
  }

  /** The digits of `n`, padded with leading zeros to at least three characters, with a `.` before the last two. */
  function Hundredths(n: nat): (s: string)
    ensures |s| >= 4 && s[|s| - 3] == '.'
    ensures forall i :: 0 <= i < |s| && i != |s| - 3 ==> IsDigit(s[i])
  {
    var m := NatToString(n);
    var padded := if |m| < 3 then Zeros(3 - |m|) + m else m;
    padded[..|padded| - 2] + "." + padded[|padded| - 2..]
  }

  /** The digits of a two-decimal text with its point removed. */
  function WithoutPoint(s: string): string
    requires |s| >= 3
  {
    s[..|s| - 3] + s[|s| - 2..]
  }

  /** `toFixed(2)`: a minus sign for a negative number, then the magnitude rounded to hundredths, halves up. */
  function ToFixed2(x: real): string
  {
    if x < 0.0 then "-" + Hundredths(Round(-x * 100.0)) else Hundredths(Round(x * 100.0))
  }

  /** A two-decimal text reads back as the hundredths it was built from. */
  lemma HundredthsRoundTrip(n: nat)
    ensures IsDigits(WithoutPoint(Hundredths(n)))
    ensures DecimalValue(WithoutPoint(Hundredths(n))) == n
  {
    var m := NatToString(n);
    var padded := if |m| < 3 then Zeros(3 - |m|) + m else m;
    NatToStringRoundTrip(n);
    if |m| < 3 {
      LeadingZeros(3 - |m|, m);
    }
    assert WithoutPoint(Hundredths(n)) == padded;
  }

  /** For a non-negative number, `toFixed(2)` prints digits, a point and two digits, whose value is within half a hundredth of the number. */
  lemma ToFixed2Value(x: real)
    requires x >= 0.0
    ensures var s := ToFixed2(x);
      |s| >= 4 && s[|s| - 3] == '.' &&
      IsDigits(WithoutPoint(s)) &&
      var v := DecimalValue(WithoutPoint(s)) as real / 100.0;
      v - 0.005 <= x < v + 0.005
  {
    HundredthsRoundTrip(Round(x * 100.0));
  }

  /** The value of a colour channel, `Math.round(value * 255)`. */
  function Channel(value: real): int
  {
    Round(value * 255.0)
  }

  /** The three channel fields, comma separated. */
  function ChannelFields(c: Color): string
  {
    IntToString(Channel(c.r)) + ", " + IntToString(Channel(c.g)) + ", " + IntToString(Channel(c.b))
  }

  /** `serializeColor`: the four-field `rgba(...)` form when the colour has an alpha other than 1, the `rgb(...)` form otherwise. */
  function SerializeColor(c: Color): string
  {
    if c.HasAlpha() && c.a != 1.0 then "rgba(" + (ChannelFields(c) + ", " + ToFixed2(c.a) + ")")
    else "rgb(" + (ChannelFields(c) + ")")
  }

  lemma PrefixOfConcat(a: string, b: string)
    ensures a <= a + b
  {
    assert (a + b)[..|a|] == a;
  }

  /** The form is chosen by the alpha alone: `rgba(` exactly when there is an alpha other than 1, `rgb(` otherwise. */
  lemma SerializeColorForm(c: Color)
    ensures "rgba(" <= SerializeColor(c) <==> c.HasAlpha() && c.a != 1.0
    ensures !(c.HasAlpha() && c.a != 1.0) <==> "rgb(" <= SerializeColor(c)
    ensures SerializeColor(c)[|SerializeColor(c)| - 1] == ')'
  {
    var s := SerializeColor(c);
    if c.HasAlpha() && c.a != 1.0 {
      var body := ChannelFields(c) + ", " + ToFixed2(c.a) + ")";
      assert s == "rgba(" + body;
      PrefixOfConcat("rgba(", body);
      assert s[3] == 'a';
      assert s[|s| - 1] == body[|body| - 1];
    } else {
      var body := ChannelFields(c) + ")";
      assert s == "rgb(" + body;
      PrefixOfConcat("rgb(", body);
      assert s[3] == '(';
      assert s[|s| - 1] == body[|body| - 1];
    }
  }

  /** A channel prints as the integer nearest to 255 times its value. */
  lemma ChannelText(value: real)
    ensures ParseInt(IntToString(Channel(value))) == Channel(value)
    ensures Channel(value) as real - 0.5 <= value * 255.0 < Channel(value) as real + 0.5
  {
    IntToStringRoundTrip(Channel(value));
  }
}
