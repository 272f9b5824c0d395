/**
 * How the handlers and the dashboard turn numbers into text and round them:
 * the template literal `${n}` for a natural number, and
 * `Number.prototype.toFixed(d)`, which rounds |x| to d decimals (half away
 * from zero: on a tie it takes the larger candidate) and prints a leading
 * '-' whenever x < 0. The numbers are exact reals; values of 1e21 and above,
 * for which `toFixed` switches to exponent notation, are not modelled.
 */
module Decimal {

  predicate IsDigit(c: char) { '0' <= c <= '9' }

  predicate IsDigits(s: string) { forall i :: 0 <= i < |s| ==> IsDigit(s[i]) }

  function DigitChar(d: nat): (c: char)
    requires d < 10
    ensures IsDigit(c) && c as int - '0' as int == d
  {
    ('0' as int + d) as char
  }

  /** The number a string of decimal digits denotes (the empty string denotes 0). */
  function DecimalValue(s: string): nat
    requires IsDigits(s)
  {
    if s == [] then 0
    else DecimalValue(s[..|s| - 1]) * 10 + (s[|s| - 1] as int - '0' as int)
  }

  /** `${n}` for a natural number n: its shortest decimal spelling. */
  function NatToDecimal(n: nat): (r: string)
    ensures |r| >= 1 && IsDigits(r)
    ensures DecimalValue(r) == n
    ensures |r| > 1 ==> r[0] != '0'
  {
    if n < 10 then [DigitChar(n)]
    else
      var r := NatToDecimal(n / 10) + [DigitChar(n % 10)];
      assert r[..|r| - 1] == NatToDecimal(n / 10);
      r
  }

  lemma NatToDecimalInjective(a: nat, b: nat)
    ensures NatToDecimal(a) == NatToDecimal(b) ==> a == b
  {
  }

  function Pow10(d: nat): (p: nat)
    ensures p >= 1
  {
    if d == 0 then 1 else 10 * Pow10(d - 1)
  }

  function Abs(x: real): (r: real)
    ensures r >= 0.0 && (r == x || r == -x)
  {
    if x < 0.0 then -x else x
  }

  /** The integer n with n - y closest to zero, the larger one on a tie. */
  function RoundHalfUp(y: real): (n: nat)
    requires y >= 0.0
    ensures n as real - 1.0 / 2.0 <= y < n as real + 1.0 / 2.0
  {
    (y + 1.0 / 2.0).Floor
  }

  /** The digits `toFixed(d)` prints for x, read as an integer: |x|·10^d rounded. */
  function Scaled(x: real, d: nat): nat
  {
    RoundHalfUp(Abs(x) * Pow10(d) as real)
  }

  /** `parseFloat(x.toFixed(d))`: the number that `toFixed(d)` prints. */
  function RoundFixed(x: real, d: nat): real
  {
    var m := Scaled(x, d) as real / Pow10(d) as real;
    if x < 0.0 then -m else m
  }

  /** n in decimal, left-padded with zeros to at least `width` characters. */
  function PadDigits(n: nat, width: nat): (r: string)
    ensures IsDigits(r) && |r| >= width && |r| >= 1
    ensures DecimalValue(r) == n
    ensures |r| > width && |r| > 1 ==> r[0] != '0'
  {
    var s := NatToDecimal(n);
    if |s| >= width then s
    else
      var r := Zeros(width - |s|) + s;
      LeadingZeros(width - |s|, s);
      r
  }

  function Zeros(k: nat): (z: string)
    ensures |z| == k && IsDigits(z)
    ensures forall i :: 0 <= i < k ==> z[i] == '0'
  {
    if k == 0 then [] else Zeros(k - 1) + ['0']
  }

  /** Leading zeros do not change the value of a digit string. */
  lemma {:induction false} LeadingZeros(k: nat, s: string)
    requires IsDigits(s)
    ensures IsDigits(Zeros(k) + s)
    ensures DecimalValue(Zeros(k) + s) == DecimalValue(s)
  {
    var t := Zeros(k) + s;
    if s == [] {
      assert t == Zeros(k);
      AllZeros(k);
    } else {
      var init := s[..|s| - 1];
      assert t[..|t| - 1] == Zeros(k) + init;
      LeadingZeros(k, init);
    }
  }

  lemma {:induction false} AllZeros(k: nat)
    ensures DecimalValue(Zeros(k)) == 0
  {
    if k > 0 {
      assert Zeros(k)[..k - 1] == Zeros(k - 1);
      AllZeros(k - 1);
    }
  }

  /** The digit characters of a string, in order. */
  function DigitsOnly(s: string): (r: string)
    ensures IsDigits(r)
  {
    if s == [] then []
    else (if IsDigit(s[0]) then [s[0]] else []) + DigitsOnly(s[1..])
  }

  lemma {:induction false} DigitsOnlyAppend(a: string, b: string)
    ensures DigitsOnly(a + b) == DigitsOnly(a) + DigitsOnly(b)
  {
    if a == [] {
      assert a + b == b;
    } else {
      assert (a + b)[0] == a[0];
      assert (a + b)[1..] == a[1..] + b;
      DigitsOnlyAppend(a[1..], b);
      var h := if IsDigit(a[0]) then [a[0]] else [];
      calc {
        DigitsOnly(a + b);
        h + DigitsOnly(a[1..] + b);
        h + (DigitsOnly(a[1..]) + DigitsOnly(b));
        (h + DigitsOnly(a[1..])) + DigitsOnly(b);
        DigitsOnly(a) + DigitsOnly(b);
      }
    }
  }

  lemma {:induction false} DigitsOnlyOfDigits(s: string)
    requires IsDigits(s)
    ensures DigitsOnly(s) == s
  {
    if s != [] {
      DigitsOnlyOfDigits(s[1..]);
    }
  }

  /**
   * `x.toFixed(d)`: an optional '-' (exactly when x < 0), the integer part,
   * and, when d > 0, a '.' followed by exactly d digits.
   */
  function FormatFixed(x: real, d: nat): string
  {
    var sign := if x < 0.0 then "-" else "";
    var p := PadDigits(Scaled(x, d), d + 1);
    sign + FixedBody(p, d)
  }

  /** Where the integer part ends in a body of `len` characters with d decimals. */
  function IntegerEnd(len: int, d: nat): int
  {
    if d > 0 then len - d - 1 else len
  }

  /** A digit string with a '.' inserted d places from its end (none when d is 0). */
  function FixedBody(p: string, d: nat): string
    requires |p| >= d + 1
  {
    if d == 0 then p else p[..|p| - d] + "." + p[|p| - d..]
  }

  /** Both halves of a digit string are digit strings. */
  lemma DigitsSplit(p: string, k: nat)
    requires IsDigits(p) && k <= |p|
    ensures IsDigits(p[..k]) && IsDigits(p[k..])
  {
    assert forall i :: 0 <= i < k ==> p[..k][i] == p[i];
    assert forall i :: 0 <= i < |p| - k ==> p[k..][i] == p[k + i];
  }

  /** A '.' between two digit strings is the only character dropped. */
  lemma DigitsAroundDot(a: string, c: string)
    requires IsDigits(a) && IsDigits(c)
    ensures DigitsOnly(a + "." + c) == a + c
  {
    assert DigitsOnly(a + ".") == a by {
      DigitsOnlyAppend(a, ".");
      DigitsOnlyOfDigits(a);
      assert DigitsOnly(".") == [];
    }
    assert DigitsOnly(c) == c by {
      DigitsOnlyOfDigits(c);
    }
    DigitsOnlyAppend(a + ".", c);
  }

  /** Inserting the '.' leaves the digits, in order, untouched. */
  lemma FixedBodyDigits(p: string, d: nat)
    requires |p| >= d + 1 && IsDigits(p)
    ensures DigitsOnly(FixedBody(p, d)) == p
  {
    if d > 0 {
      var k := |p| - d;
      DigitsSplit(p, k);
      DigitsAroundDot(p[..k], p[k..]);
      assert p[..k] + p[k..] == p;
    } else {
      DigitsOnlyOfDigits(p);
    }
  }

  /**
   * What `x.toFixed(d)` prints: a leading '-' exactly when x < 0, a '.'
   * followed by exactly d digits when d > 0, and digits that, read as one
   * number, are |x|·10^d rounded half up.
   */
  lemma FormatFixedShape(x: real, d: nat)
    ensures var r := FormatFixed(x, d);
      && |r| >= 1
      && (r[0] == '-' <==> x < 0.0)
      && (d > 0 ==> |r| >= d + 2 && r[|r| - d - 1] == '.' && IsDigits(r[|r| - d..]))
      && DecimalValue(DigitsOnly(r)) == Scaled(x, d)
      && var k, e := if x < 0.0 then 1 else 0, IntegerEnd(|r|, d);
        && k < e && IsDigits(r[k..e]) && (e - k > 1 ==> r[k] != '0')
  {
    PrintedShape(x < 0.0, Scaled(x, d), d);
  }

  /** The text printed for the digits n with d decimals, with or without a '-'. */
  lemma PrintedShape(negative: bool, n: nat, d: nat)
    ensures var r := (if negative then "-" else "") + FixedBody(PadDigits(n, d + 1), d);
      && |r| >= 1
      && (r[0] == '-' <==> negative)
      && (d > 0 ==> |r| >= d + 2 && r[|r| - d - 1] == '.' && IsDigits(r[|r| - d..]))
      && DecimalValue(DigitsOnly(r)) == n
      && var k, e := if negative then 1 else 0, IntegerEnd(|r|, d);
        && k < e && IsDigits(r[k..e]) && (e - k > 1 ==> r[k] != '0')
  {
    var p := PadDigits(n, d + 1);
    var sign := if negative then "-" else "";
    SignedBodyShape(sign, p, d);
    IntegerDigits(p, d);
  }

  /**
   * The integer part of the padded digits: at least one digit, and no
   * leading '0' unless it is the only one.
   */
  lemma IntegerDigits(p: string, d: nat)
    requires IsDigits(p) && |p| >= d + 1
    requires |p| > d + 1 && |p| > 1 ==> p[0] != '0'
    ensures var q := p[..|p| - d];
      && |q| >= 1 && IsDigits(q) && q[0] == p[0] && (|q| > 1 ==> q[0] != '0')
  {
    DigitsSplit(p, |p| - d);
  }

  /** Where the '.' sits in the body, and that the digits after it are the last d of p. */
  lemma FixedBodyShape(p: string, d: nat)
    requires |p| >= d + 1
    ensures var b := FixedBody(p, d);
      && |b| >= 1 && b[0] == p[0]
      && (d > 0 ==> |b| == |p| + 1 && b[|b| - d - 1] == '.' && b[|b| - d..] == p[|p| - d..])
      && b[..IntegerEnd(|b|, d)] == p[..|p| - d]
  {
    if d > 0 {
      var a, c := p[..|p| - d], p[|p| - d..];
      var b := a + "." + c;
      assert b[|b| - d..] == c;
      assert b[..|b| - d - 1] == a;
    }
  }

  /** The body starts with a digit, has d digits after its '.', and holds exactly the digits of p. */
  lemma BodyShape(p: string, d: nat)
    requires |p| >= d + 1 && IsDigits(p)
    ensures var b := FixedBody(p, d);
      && |b| >= d + 1 && IsDigit(b[0])
      && (d > 0 ==> |b| >= d + 2 && b[|b| - d - 1] == '.' && IsDigits(b[|b| - d..]))
      && DigitsOnly(b) == p
      && b[..IntegerEnd(|b|, d)] == p[..|p| - d]
  {
    FixedBodyDigits(p, d);
    FixedBodyShape(p, d);
    if d > 0 {
      DigitsSplit(p, |p| - d);
    }
  }

  /** A leading '-' adds no digit and shifts no position counted from the end. */
  lemma MinusShape(b: string, d: nat)
    requires |b| >= d + 1
    ensures var r := "-" + b;
      && r[0] == '-'
      && DigitsOnly(r) == DigitsOnly(b)
      && r[|r| - d - 1] == b[|b| - d - 1]
      && r[|r| - d..] == b[|b| - d..]
      && r[1..IntegerEnd(|r|, d)] == b[..IntegerEnd(|b|, d)]
  {
    var r := "-" + b;
    assert r[1..] == b;
  }

  lemma SignedBodyShape(sign: string, p: string, d: nat)
    requires sign == "-" || sign == ""
    requires |p| >= d + 1 && IsDigits(p)
    ensures var r := sign + FixedBody(p, d);
      && |r| >= 1
      && (r[0] == '-' <==> sign == "-")
      && (d > 0 ==> |r| >= d + 2 && r[|r| - d - 1] == '.' && IsDigits(r[|r| - d..]))
      && DigitsOnly(r) == p
      && r[|sign|..IntegerEnd(|r|, d)] == p[..|p| - d]
  {
    var b := FixedBody(p, d);
    BodyShape(p, d);
    if sign == "" {
      assert sign + b == b;
    } else {
      MinusShape(b, d);
    }
  }

  /** `parseFloat(x.toFixed(2))` is within half a cent of x. */
  lemma CentsClose(x: real)
    ensures -1.0 / 200.0 <= x - RoundFixed(x, 2) <= 1.0 / 200.0
  {
    assert Pow10(2) == 100;
    var n := Scaled(x, 2) as real;
    assert n - 0.5 <= Abs(x) * 100.0 < n + 0.5;
    assert RoundFixed(x, 2) == if x < 0.0 then -(n / 100.0) else n / 100.0;
  }

  /** A whole number of cents survives `toFixed(2)` unchanged. */
  lemma CentsExact(k: int)
    ensures RoundFixed(k as real / 100.0, 2) == k as real / 100.0
  {
    assert Pow10(2) == 100;
    var x := k as real / 100.0;
    assert Abs(x) * 100.0 == Abs(k as real);
    var n := Scaled(x, 2);
    assert n == if k < 0 then -k else k;
  }
}
