/**
 * The display formatter `fmt` of app.py: an optional decimal rounding, then
 * integral values as plain integer text and every other value as the
 * language's own float text.
 *
 * Floats are modelled as exact reals. The text of a non-integral float is not
 * modelled: it is the parameter `floatText` that every rendering function
 * takes, and nothing is assumed about it.
 */
module Formatter {

  datatype Option<+T> = None | Some(value: T)

  /* ---------------------------------------------------------------------- */
  /* Integer text                                                           */
  /* ---------------------------------------------------------------------- */

  predicate IsDigit(c: char) {
    '0' <= c <= '9'
  }

  predicate AllDigits(s: string) {
    forall i :: 0 <= i < |s| ==> IsDigit(s[i])
  }

  /** The decimal text of a natural number has no superfluous leading zero. */
  predicate Canonical(s: string) {
    |s| >= 1 && AllDigits(s) && (s[0] == '0' ==> |s| == 1)
  }

  function DigitChar(d: nat): (c: char)
    requires d < 10
    ensures IsDigit(c) && (c as int) - ('0' as int) == d
  {
    ('0' as int + d) as char
  }

  function DigitValue(c: char): (d: nat)
    requires IsDigit(c)
    ensures d < 10 && DigitChar(d) == c
  {
    (c as int) - ('0' as int)
  }

  /** Decimal digits of `n`, most significant first, as Python's str(int) writes them. */
  function NatText(n: nat): (s: string)
    ensures Canonical(s)
    ensures n < 10 <==> |s| == 1
  {
    if n < 10 then [DigitChar(n)] else NatText(n / 10) + [DigitChar(n % 10)]
  }

  /** The number a string of decimal digits denotes. */
  function DigitsValue(s: string): nat
    requires AllDigits(s)
  {
    if s == [] then 0 else DigitsValue(s[..|s| - 1]) * 10 + DigitValue(s[|s| - 1])
  }

  /** Text of an integer: a minus sign for negative values, then the digits. */
  function IntText(i: int): (s: string)
    ensures |s| >= 1 && (s[0] == '-' <==> i < 0)
    ensures Canonical(if i < 0 then s[1..] else s)
  {
    if i < 0 then "-" + NatText(-i) else NatText(i)
  }

  /** Reads back an optional minus sign followed by at least one digit. */
  function ParseInt(s: string): Option<int> {
    if |s| >= 2 && s[0] == '-' && AllDigits(s[1..]) then Some(-(DigitsValue(s[1..]) as int))
    else if |s| >= 1 && AllDigits(s) then Some(DigitsValue(s))
    else None
  }

  lemma {:induction false} NatTextRoundTrip(n: nat)
    ensures DigitsValue(NatText(n)) == n
  {
    if n >= 10 {
      var s := NatText(n);
      assert s[..|s| - 1] == NatText(n / 10);
      NatTextRoundTrip(n / 10);
    }
  }

  lemma {:induction false} CanonicalPositive(s: string)
    requires Canonical(s) && s[0] != '0'
    ensures DigitsValue(s) >= 1
  {
    if |s| > 1 {
      CanonicalPositive(s[..|s| - 1]);
    }
  }

  /** Every canonical digit string is the text of the number it denotes. */
  lemma {:induction false} CanonicalRoundTrip(s: string)
    requires Canonical(s)
    ensures NatText(DigitsValue(s)) == s
  {
    if |s| > 1 {
      var p := s[..|s| - 1];
      assert s[0] != '0';
      assert Canonical(p);
      CanonicalPositive(p);
      CanonicalRoundTrip(p);
      var v := DigitsValue(s);
      assert v / 10 == DigitsValue(p) && v % 10 == DigitValue(s[|s| - 1]);
      assert s == p + [s[|s| - 1]];
    }
  }

  /** Reading the text of any integer gives that integer back; the text has no decimal point. */
  lemma IntTextRoundTrip(i: int)
    ensures ParseInt(IntText(i)) == Some(i)
    ensures '.' !in IntText(i)
  {
    var n: nat := if i < 0 then -i else i;
    var t := NatText(n);
    NatTextRoundTrip(n);
    assert IsDigit(t[0]);
    if i < 0 {
      var u := "-" + t;
      assert u[1..] == t;
      assert ParseInt(u) == Some(-(DigitsValue(t) as int));
      NoPointInDigits(t);
      assert forall k :: 0 <= k < |u| ==> u[k] != '.' by {
        forall k | 0 <= k < |u| ensures u[k] != '.' {
          if k > 0 { assert u[k] == t[k - 1]; }
        }
      }
    } else {
      assert ParseInt(t) == Some(DigitsValue(t) as int);
      NoPointInDigits(t);
    }
  }

  lemma NoPointInDigits(t: string)
    requires AllDigits(t)
    ensures '.' !in t
  {
    assert !IsDigit('.');
  }

  /* ---------------------------------------------------------------------- */
  /* Decimal rounding, as Python's round(x, ndigits) on an exact value      */
  /* ---------------------------------------------------------------------- */

  function Pow10(n: nat): (p: nat)
    ensures p >= 1
  {
    if n == 0 then 1 else 10 * Pow10(n - 1)
  }

  /** The number of units of 10^-n in one: 10^n as a real. */
  function Scale(n: nat): (p: real)
    ensures p >= 1.0
  {
    Pow10(n) as real
  }

  function Abs(x: real): real {
    if x < 0.0 then -x else x
  }

  /** Python's float(x).is_integer(). */
  predicate IsIntegral(x: real) {
    x.Floor as real == x
  }

  /** `x` is a whole number of units of 1/p. */
  predicate OnScale(x: real, p: real) {
    IsIntegral(x * p)
  }

  /** `x` has at most ndigits fractional decimal digits. */
  predicate OnGrid(x: real, ndigits: nat) {
    OnScale(x, Scale(ndigits))
  }

  /** Round half to even to an integer: the nearest integer, the even one on a tie. */
  function RoundHalfEven(s: real): (k: int)
    ensures -0.5 <= k as real - s <= 0.5
    ensures s - s.Floor as real == 0.5 ==> k % 2 == 0
    ensures IsIntegral(s) ==> k as real == s
  {
    var f := s.Floor;
    var frac := s - f as real;
    if frac < 0.5 then f
    else if frac > 0.5 then f + 1
    else if f % 2 == 0 then f
    else f + 1
  }

  /** No integer is strictly closer to `s` than its rounding. */
  lemma RoundHalfEvenIsNearest(s: real, m: int)
    ensures Abs(RoundHalfEven(s) as real - s) <= Abs(m as real - s)
  {
    var f := s.Floor;
    assert m <= f || m >= f + 1;
  }

  /** Rounding to a whole number of units of 1/p, half to even. */
  function RoundScaled(x: real, p: real): real
    requires p >= 1.0
  {
    RoundHalfEven(x * p) as real / p
  }

  /** Python's round(x, ndigits) for a non-negative ndigits, on exact values. */
  function RoundTo(x: real, ndigits: nat): real {
    RoundScaled(x, Scale(ndigits))
  }

  /* Arithmetic facts about a positive scale, each kept to its own small context. */

  lemma DivMul(a: real, p: real)
    requires p > 0.0
    ensures (a / p) * p == a
  {
  }

  lemma MulDiv(a: real, p: real)
    requires p > 0.0
    ensures (a * p) / p == a
  {
  }

  lemma Distribute(a: real, b: real, p: real)
    ensures (a - b) * p == a * p - b * p
  {
  }

  lemma PositiveProduct(u: real, p: real)
    requires u > 0.0 && p > 0.0
    ensures u * p > 0.0
  {
  }

  lemma HalfUnit(d: real, p: real)
    requires p >= 1.0
    requires -0.5 <= d * p <= 0.5
    ensures Abs(d) <= 1.0 / (2.0 * p)
  {
    assert 1.0 / (2.0 * p) * (2.0 * p) == 1.0;
    if d < 0.0 {
      assert -d * (2.0 * p) <= 1.0;
    } else {
      assert d * (2.0 * p) <= 1.0;
    }
  }

  /** Distances compared after multiplying by a positive factor compare the same way before. */
  lemma CloserAfterScaling(r: real, g: real, x: real, p: real)
    requires p > 0.0
    requires Abs(r * p - x * p) <= Abs(g * p - x * p)
    ensures Abs(r - x) <= Abs(g - x)
  {
    Distribute(r, x, p);
    Distribute(g, x, p);
    assert Abs((r - x) * p) == Abs(r - x) * p;
    assert Abs((g - x) * p) == Abs(g - x) * p;
    if Abs(r - x) > Abs(g - x) {
      PositiveProduct(Abs(r - x) - Abs(g - x), p);
      Distribute(Abs(r - x), Abs(g - x), p);
    }
  }

  /* Rounding to a scale */

  /** k / p is k units of 1/p, and within half a unit of x when k is within half of x * p. */
  lemma ScaledBack(k: int, x: real, p: real)
    requires p >= 1.0
    requires -0.5 <= k as real - x * p <= 0.5
    ensures OnScale(k as real / p, p)
    ensures Abs(k as real / p - x) <= 1.0 / (2.0 * p)
  {
    var r := k as real / p;
    DivMul(k as real, p);
    assert r * p == k as real;
    assert (k as real).Floor == k;
    Distribute(r, x, p);
    HalfUnit(r - x, p);
  }

  lemma RoundScaledBounds(x: real, p: real)
    requires p >= 1.0
    ensures OnScale(RoundScaled(x, p), p)
    ensures Abs(RoundScaled(x, p) - x) <= 1.0 / (2.0 * p)
  {
    ScaledBack(RoundHalfEven(x * p), x, p);
  }

  lemma RoundScaledFixed(x: real, p: real)
    requires p >= 1.0 && OnScale(x, p)
    ensures RoundScaled(x, p) == x
  {
    var k := RoundHalfEven(x * p);
    assert k as real == x * p;
    MulDiv(x, p);
  }

  lemma RoundScaledNearest(x: real, p: real, g: real)
    requires p >= 1.0 && OnScale(g, p)
    ensures Abs(RoundScaled(x, p) - x) <= Abs(g - x)
  {
    var k := RoundHalfEven(x * p);
    RoundHalfEvenIsNearest(x * p, (g * p).Floor);
    NearerUnits(k, (g * p).Floor, x, p, g);
  }

  /** An integer k of units of 1/p at least as near x · p as g · p gives k / p at least as near x as g. */
  lemma NearerUnits(k: int, m: int, x: real, p: real, g: real)
    requires p > 0.0 && m as real == g * p
    requires Abs(k as real - x * p) <= Abs(m as real - x * p)
    ensures Abs(k as real / p - x) <= Abs(g - x)
  {
    DivMul(k as real, p);
    CloserAfterScaling(k as real / p, g, x, p);
  }

  /* Rounding to a number of decimal digits */

  /** The rounding has at most ndigits fractional digits and is within half a unit of the last one. */
  lemma RoundToBounds(x: real, ndigits: nat)
    ensures OnGrid(RoundTo(x, ndigits), ndigits)
    ensures Abs(RoundTo(x, ndigits) - x) <= 1.0 / (2.0 * Scale(ndigits))
  {
    RoundScaledBounds(x, Scale(ndigits));
  }

  /** A value that already has at most ndigits fractional digits is left unchanged. */
  lemma RoundToOnGrid(x: real, ndigits: nat)
    requires OnGrid(x, ndigits)
    ensures RoundTo(x, ndigits) == x
  {
    RoundScaledFixed(x, Scale(ndigits));
  }

  /** Rounding twice to the same number of digits is rounding once. */
  lemma RoundToIdempotent(x: real, ndigits: nat)
    ensures RoundTo(RoundTo(x, ndigits), ndigits) == RoundTo(x, ndigits)
  {
    RoundToBounds(x, ndigits);
    RoundToOnGrid(RoundTo(x, ndigits), ndigits);
  }

  /** No value with at most ndigits fractional digits is strictly closer to x than its rounding. */
  lemma RoundToIsNearest(x: real, ndigits: nat, g: real)
    requires OnGrid(g, ndigits)
    ensures Abs(RoundTo(x, ndigits) - x) <= Abs(g - x)
  {
    RoundScaledNearest(x, Scale(ndigits), g);
  }

  /* ---------------------------------------------------------------------- */
  /* fmt                                                                    */
  /* ---------------------------------------------------------------------- */

  /** The value fmt renders: rounded only when a number of digits is given. */
  function Displayed(x: real, ndigits: Option<nat>): (y: real)
    ensures ndigits.None? ==> y == x
    ensures ndigits.Some? ==> OnGrid(y, ndigits.value)
    ensures ndigits.Some? ==> Abs(y - x) <= 1.0 / (2.0 * Scale(ndigits.value))
  {
    match ndigits
    case None => x
    case Some(n) =>
      RoundToBounds(x, n);
      RoundTo(x, n)
  }

  /**
   * fmt(x, ndigits): integral values (after the optional rounding) become
   * integer text that reads back as that value and has no decimal point;
   * others are handed to `floatText`. There is no failure path.
   */
  function Fmt(x: real, ndigits: Option<nat>, floatText: real -> string): (r: string)
    ensures IsIntegral(Displayed(x, ndigits)) ==>
              ParseInt(r) == Some(Displayed(x, ndigits).Floor) && '.' !in r
    ensures !IsIntegral(Displayed(x, ndigits)) ==> r == floatText(Displayed(x, ndigits))
  {
    var y := Displayed(x, ndigits);
    if IsIntegral(y) then
      IntTextRoundTrip(y.Floor);
      IntText(y.Floor)
    else
      floatText(y)
  }

  /** Rounding happens before the integral test: fmt(x, n) is fmt(round(x, n)). */
  lemma FmtRoundsFirst(x: real, n: nat, floatText: real -> string)
    ensures Fmt(x, Some(n), floatText) == Fmt(RoundTo(x, n), None, floatText)
  {
  }

  /** Giving digits changes nothing for a value that already has at most that many. */
  lemma FmtOnGridIgnoresDigits(x: real, n: nat, floatText: real -> string)
    requires OnGrid(x, n)
    ensures Fmt(x, Some(n), floatText) == Fmt(x, None, floatText)
  {
    RoundToOnGrid(x, n);
  }

  /**
   * A value that rounds to a whole number is shown as integer text, and
   * that integer is within half a unit of the last shown digit of x.
   */
  lemma FmtCollapsesNearInteger(x: real, n: nat, floatText: real -> string)
    requires IsIntegral(RoundTo(x, n))
    ensures '.' !in Fmt(x, Some(n), floatText)
    ensures ParseInt(Fmt(x, Some(n), floatText)).Some?
    ensures Abs(ParseInt(Fmt(x, Some(n), floatText)).value as real - x) <= 1.0 / (2.0 * Scale(n))
  {
  }

  /** An integral value is written as its canonical decimal text, with a sign when negative. */
  lemma FmtIntegralText(x: real, floatText: real -> string)
    requires IsIntegral(x)
    ensures x >= 0.0 ==> Canonical(Fmt(x, None, floatText))
    ensures x < 0.0 ==> Fmt(x, None, floatText)[0] == '-' && Canonical(Fmt(x, None, floatText)[1..])
  {
    if x < 0.0 {
      assert Fmt(x, None, floatText)[1..] == NatText(-x.Floor);
    }
  }

  /** The documented examples: 4.0 -> "4", 3.5 -> str(3.5), and two rounded ones. */
  lemma FmtExamples(floatText: real -> string)
    ensures Fmt(4.0, None, floatText) == "4"
    ensures Fmt(3.5, None, floatText) == floatText(3.5)
    ensures Fmt(3.14159, Some(4), floatText) == floatText(3.1416)
    ensures Fmt(2.00001, Some(4), floatText) == "2"
    ensures Fmt(-12.0, None, floatText) == "-12"
  {
    assert Pow10(4) == 10000;
    assert RoundTo(3.14159, 4) == 3.1416;
    assert RoundTo(2.00001, 4) == 2.0;
    assert NatText(12) == NatText(1) + [DigitChar(2)];
  }
}
