/** Exact decimal money: decimal texts, rupee amounts in paise, and currency conversion. Texts are
    taken as trimmed. */
module Money {
  import opened Basics

  const MAX_INR_MINOR := 999_999_999_999

  /** `coefficient` divided by ten to the `scale`. */
  datatype Decimal = Decimal(coefficient: nat, scale: nat)

  function Pow10(n: nat): (p: nat)
    ensures p >= 1
  {
    if n == 0 then 1 else 10 * Pow10(n - 1)
  }

  // ---- digits -----------------------------------------------------------------------------------------------

  predicate IsDigit(c: char) { '0' <= c <= '9' }

  predicate IsDigits(s: string) { forall i :: 0 <= i < |s| ==> IsDigit(s[i]) }

  function Digit(c: char): (d: nat)
    requires IsDigit(c)
    ensures d < 10
  {
    c as int - '0' as int
  }

  function DigitChar(d: nat): (c: char)
    requires d < 10
    ensures IsDigit(c) && Digit(c) == d
  {
    ('0' as int + d) as char
  }

  function Number(s: string): nat
    requires IsDigits(s)
  {
    if s == "" then 0 else Number(s[..|s| - 1]) * 10 + Digit(s[|s| - 1])
  }

  /** A number's decimal text, without leading zeros. */
  function Show(n: nat): (s: string)
    ensures s != "" && IsDigits(s)
  {
    if n < 10 then [DigitChar(n)] else Show(n / 10) + [DigitChar(n % 10)]
  }

  lemma {:induction false} NumberShow(n: nat)
    ensures Number(Show(n)) == n
  {
    if n < 10 {
      assert Show(n)[..0] == "";
    } else {
      NumberShow(n / 10);
      assert Show(n)[..|Show(n)| - 1] == Show(n / 10);
    }
  }

  lemma PowStep(n: nat)
    requires n > 0
    ensures Pow10(n) == 10 * Pow10(n - 1)
  {
  }

  lemma {:induction false} NumberBound(s: string)
    requires IsDigits(s)
    ensures Number(s) < Pow10(|s|)
  {
    if s != "" {
      NumberBound(s[..|s| - 1]);
      PowStep(|s|);
    }
  }

  lemma {:induction false} ShowLength(n: nat, k: nat)
    requires n < Pow10(k) && k > 0
    ensures |Show(n)| <= k
  {
    if n >= 10 {
      assert k > 1;
      PowStep(k);
      ShowLength(n / 10, k - 1);
    }
  }

  lemma PowAdd(a: nat, b: nat)
    ensures Pow10(a + b) == Pow10(a) * Pow10(b)
  {
    if a > 0 {
      PowAdd(a - 1, b);
      calc {
        Pow10(a + b);
        10 * Pow10(a - 1 + b);
        10 * (Pow10(a - 1) * Pow10(b));
        (10 * Pow10(a - 1)) * Pow10(b);
      }
    }
  }

  lemma ShiftDigit(x: nat, p: nat, y: nat, d: nat)
    ensures (x * p + y) * 10 + d == x * (10 * p) + (y * 10 + d)
  {
  }

  lemma {:induction false} NumberConcat(a: string, b: string)
    requires IsDigits(a) && IsDigits(b)
    ensures Number(a + b) == Number(a) * Pow10(|b|) + Number(b)
  {
    if b == "" {
      assert a + b == a;
    } else {
      var n := |b| - 1;
      NumberConcat(a, b[..n]);
      assert (a + b)[..|a + b| - 1] == a + b[..n];
      PowStep(|b|);
      ShiftDigit(Number(a), Pow10(n), Number(b[..n]), Digit(b[n]));
    }
  }

  // ---- decimal texts ----------------------------------------------------------------------------------------

  /** The position of the first point. */
  function Point(s: string): (i: nat)
    ensures i <= |s| && (i < |s| ==> s[i] == '.') && forall j :: 0 <= j < i ==> s[j] != '.'
  {
    if s == "" || s[0] == '.' then 0 else 1 + Point(s[1..])
  }

  predicate ValidText(s: string, maxScale: nat) {
    var i := Point(s);
    && 1 <= i <= 16 && IsDigits(s[..i])
    && (i < |s| ==> 1 <= |s| - i - 1 <= 14 && |s| - i - 1 <= maxScale && IsDigits(s[i + 1..]))
  }

  function Whole(s: string): string { s[..Point(s)] }

  function Fraction(s: string): string { if Point(s) < |s| then s[Point(s) + 1..] else "" }

  /** `decimalParts`. */
  function DecimalParts(s: string, maxScale: nat): Option<Decimal> {
    if !ValidText(s, maxScale) then None else Some(Decimal(Number(Whole(s) + Fraction(s)), |Fraction(s)|))
  }

  /** Without its trailing zeros. */
  function Stripped(s: string): (r: string)
    ensures |r| <= |s| && (IsDigits(s) ==> IsDigits(r))
  {
    if s == "" then ""
    else
      var rest := Stripped(s[1..]);
      if rest == "" && s[0] == '0' then "" else [s[0]] + rest
  }

  function Assemble(whole: string, fraction: string): string {
    if fraction == "" then whole else whole + "." + fraction
  }

  /** `canonicalDecimal`. */
  function Canonical(s: string, maxScale: nat): Option<string> {
    if !ValidText(s, maxScale) then None else Some(Assemble(Show(Number(Whole(s))), Stripped(Fraction(s))))
  }

  lemma {:induction false} PointAt(whole: string, rest: string)
    requires forall j :: 0 <= j < |whole| ==> whole[j] != '.'
    requires rest == "" || rest[0] == '.'
    ensures Point(whole + rest) == |whole|
  {
    if whole == "" {
      assert whole + rest == rest;
    } else {
      PointAt(whole[1..], rest);
      assert (whole + rest)[1..] == whole[1..] + rest;
    }
  }

  lemma AssembledParts(whole: string, fraction: string)
    requires IsDigits(whole)
    ensures Point(Assemble(whole, fraction)) == |whole|
    ensures Whole(Assemble(whole, fraction)) == whole && Fraction(Assemble(whole, fraction)) == fraction
  {
    if fraction == "" {
      PointAt(whole, "");
      assert whole + "" == whole && whole[..|whole|] == whole;
    } else {
      var s := Assemble(whole, fraction);
      PointAt(whole, "." + fraction);
      assert s == whole + ("." + fraction);
      assert s[..|whole|] == whole && s[|whole| + 1..] == fraction;
    }
  }

  lemma {:induction false} StrippedTwice(s: string)
    ensures Stripped(Stripped(s)) == Stripped(s)
  {
    if s != "" {
      StrippedTwice(s[1..]);
      var r := Stripped(s);
      if r != "" {
        assert r[1..] == Stripped(s[1..]);
      }
    }
  }

  /** An accepted text's canonical form is accepted, has the same whole number and the fraction
      without trailing zeros. */
  lemma CanonicalParts(s: string, maxScale: nat)
    requires ValidText(s, maxScale)
    ensures var c := Canonical(s, maxScale).value;
      && ValidText(c, maxScale) && Whole(c) == Show(Number(Whole(s))) && Fraction(c) == Stripped(Fraction(s))
      && Number(Whole(c)) == Number(Whole(s))
  {
    var w := Whole(s);
    NumberBound(w);
    ShowLength(Number(w), |w|);
    NumberShow(Number(w));
    AssembledParts(Show(Number(w)), Stripped(Fraction(s)));
  }

  /** `canonicalDecimal` is idempotent. */
  lemma CanonicalTwice(s: string, maxScale: nat)
    requires ValidText(s, maxScale)
    ensures Canonical(Canonical(s, maxScale).value, maxScale) == Canonical(s, maxScale)
  {
    CanonicalParts(s, maxScale);
    StrippedTwice(Fraction(s));
  }

  // ---- values ------------------------------------------------------------------------------------------------

  predicate SameValue(a: Decimal, b: Decimal) { a.coefficient * Pow10(b.scale) == b.coefficient * Pow10(a.scale) }

  predicate AtMost(a: Decimal, b: Decimal) { a.coefficient * Pow10(b.scale) <= b.coefficient * Pow10(a.scale) }

  lemma {:induction false} AllZero(s: string)
    requires IsDigits(s)
    ensures Number(s) == 0 <==> Stripped(s) == ""
  {
    if s != "" {
      AllZero(s[1..]);
      FrontDigit(s);
      assert IsDigit(s[0]);
      assert Digit(s[0]) == 0 <==> s[0] == '0';
      if Digit(s[0]) > 0 {
        assert Digit(s[0]) * Pow10(|s| - 1) >= 1;
      }
    }
  }

  lemma OneDigit(c: char)
    requires IsDigit(c)
    ensures Number([c]) == Digit(c)
  {
  }

  lemma FrontDigit(s: string)
    requires s != "" && IsDigits(s)
    ensures Number(s) == Digit(s[0]) * Pow10(|s| - 1) + Number(s[1..])
    ensures Number(s[1..]) < Pow10(|s| - 1)
  {
    NumberConcat(s[..1], s[1..]);
    NumberBound(s[1..]);
    assert s[..1] + s[1..] == s;
    OneDigit(s[0]);
    hide Number, Pow10;
    assert s[..1] == [s[0]];
  }

  /** Two numbers below a unit, each a digit of it and a remainder: equal exactly when both parts are. */
  lemma QuotientsEqual(d: nat, e: nat, r: nat, t: nat, unit: nat)
    requires r < unit && t < unit
    ensures d * unit + r == e * unit + t <==> d == e && r == t
  {
    if d < e {
      assert (d + 1) * unit <= e * unit;
    } else if e < d {
      assert (e + 1) * unit <= d * unit;
    }
  }

  lemma ScaleBoth(x: nat, y: nat, k: nat)
    requires k > 0
    ensures x * k == y * k <==> x == y
  {
  }

  lemma FractionStep(d: nat, a: nat, b: nat, p: nat)
    ensures (d * a + p) * (10 * b) == 10 * (d * (a * b) + p * b)
  {
  }

  lemma Distribute(w: nat, p: nat, f: nat, q: nat)
    ensures (w * p + f) * q == w * (p * q) + f * q
  {
  }

  /** Fractions of equal value have the same digits up to trailing zeros, and only those. */
  lemma {:induction false} SameFraction(f: string, g: string)
    requires IsDigits(f) && IsDigits(g)
    ensures Number(f) * Pow10(|g|) == Number(g) * Pow10(|f|) <==> Stripped(f) == Stripped(g)
    decreases |f|
  {
    if f == "" {
      AllZero(g);
      ScaleBoth(Number(g), 0, Pow10(|f|));
    } else if g == "" {
      AllZero(f);
      ScaleBoth(Number(f), 0, Pow10(|g|));
    } else {
      var a, b := |f| - 1, |g| - 1;
      var p, q := Number(f[1..]), Number(g[1..]);
      FrontDigit(f);
      FrontDigit(g);
      PowStep(|f|);
      PowStep(|g|);
      SameFraction(f[1..], g[1..]);
      StrippedFront(f, g);
      hide Number, Stripped, Pow10, Digit;
      FractionParts(Digit(f[0]), Digit(g[0]), p, q, Pow10(a), Pow10(b));
    }
  }

  lemma FractionParts(d: nat, e: nat, p: nat, q: nat, a: nat, b: nat)
    requires p < a && q < b
    ensures (d * a + p) * (10 * b) == (e * b + q) * (10 * a) <==> d == e && p * b == q * a
  {
    FractionStep(d, a, b, p);
    FractionStep(e, b, a, q);
    RemainderBelow(p, a, b);
    RemainderBelow(q, b, a);
    assert a * b == b * a;
    QuotientsEqual(d, e, p * b, q * a, a * b);
  }

  lemma WholeParts(w: nat, v: nat, p: nat, q: nat, a: nat, b: nat)
    requires p < a && q < b
    ensures (w * a + p) * b == (v * b + q) * a <==> w == v && p * b == q * a
  {
    Distribute(w, a, p, b);
    Distribute(v, b, q, a);
    RemainderBelow(p, a, b);
    RemainderBelow(q, b, a);
    assert a * b == b * a;
    QuotientsEqual(w, v, p * b, q * a, a * b);
  }

  lemma RemainderBelow(r: nat, m: nat, k: nat)
    requires r < m && k > 0
    ensures r * k < m * k
  {
  }

  lemma StrippedFront(f: string, g: string)
    requires f != "" && g != "" && IsDigits(f) && IsDigits(g)
    ensures Stripped(f) == Stripped(g) <==> Digit(f[0]) == Digit(g[0]) && Stripped(f[1..]) == Stripped(g[1..])
  {
    assert IsDigit(f[0]) && IsDigit(g[0]);
    assert Digit(f[0]) == Digit(g[0]) <==> f[0] == g[0];
    var r, t := Stripped(f), Stripped(g);
    assert r != "" ==> r[0] == f[0] && r[1..] == Stripped(f[1..]);
    assert t != "" ==> t[0] == g[0] && t[1..] == Stripped(g[1..]);
  }

  lemma {:induction false} SameNumberSameShow(a: nat, b: nat)
    ensures Show(a) == Show(b) <==> a == b
  {
    NumberShow(a);
    NumberShow(b);
  }

  lemma PartsValue(s: string, maxScale: nat)
    requires ValidText(s, maxScale)
    ensures var d := DecimalParts(s, maxScale).value;
      d.coefficient == Number(Whole(s)) * Pow10(d.scale) + Number(Fraction(s)) && Number(Fraction(s)) < Pow10(d.scale)
  {
    NumberConcat(Whole(s), Fraction(s));
    NumberBound(Fraction(s));
  }

  /** Two accepted texts have one canonical form exactly when they are one number. */
  lemma CanonicalIffSameValue(s: string, t: string, m: nat, n: nat)
    requires ValidText(s, m) && ValidText(t, n)
    ensures Canonical(s, m) == Canonical(t, n) <==> SameValue(DecimalParts(s, m).value, DecimalParts(t, n).value)
  {
    CanonicalParts(s, m);
    CanonicalParts(t, n);
    SameValueIffParts(s, t, m, n);
    SameNumberSameShow(Number(Whole(s)), Number(Whole(t)));
    hide ValidText, Number, Stripped, Show, SameValue;
  }

  lemma SameValueIffParts(s: string, t: string, m: nat, n: nat)
    requires ValidText(s, m) && ValidText(t, n)
    ensures SameValue(DecimalParts(s, m).value, DecimalParts(t, n).value)
       <==> Number(Whole(s)) == Number(Whole(t)) && Stripped(Fraction(s)) == Stripped(Fraction(t))
  {
    PartsValue(s, m);
    PartsValue(t, n);
    var d, e := DecimalParts(s, m).value, DecimalParts(t, n).value;
    var w, v, f, g := Number(Whole(s)), Number(Whole(t)), Fraction(s), Fraction(t);
    SameFraction(f, g);
    hide ValidText, Number, Stripped, Whole, Fraction, DecimalParts, Pow10;
    WholeParts(w, v, Number(f), Number(g), Pow10(d.scale), Pow10(e.scale));
  }

  /** Canonical form preserves the value. */
  lemma CanonicalSameValue(s: string, maxScale: nat)
    requires ValidText(s, maxScale)
    ensures ValidText(Canonical(s, maxScale).value, maxScale)
    ensures SameValue(DecimalParts(Canonical(s, maxScale).value, maxScale).value, DecimalParts(s, maxScale).value)
  {
    CanonicalParts(s, maxScale);
    CanonicalTwice(s, maxScale);
    CanonicalIffSameValue(Canonical(s, maxScale).value, s, maxScale, maxScale);
  }

  // ---- paise ---------------------------------------------------------------------------------------------------

  function TwoDigits(n: nat): string
    requires n < 100
  {
    [DigitChar(n / 10), DigitChar(n % 10)]
  }

  /** `minorToInr`. */
  function MinorToInr(paise: int): string {
    var n: nat := if paise < 0 then -paise else paise;
    (if paise < 0 then "-" else "") + Show(n / 100) + "." + TwoDigits(n % 100)
  }

  /** `inrMinor`. */
  function InrMinor(s: string): Option<nat> {
    var p := DecimalParts(s, 2);
    if p.None? || p.value.scale > 2 then None else Some(p.value.coefficient * Pow10(2 - p.value.scale))
  }

  /** `inrAmount`. */
  function InrAmount(s: string): Option<string> {
    var paise := InrMinor(s);
    if paise.None? || paise.value == 0 || paise.value > MAX_INR_MINOR then None else Some(MinorToInr(paise.value))
  }

  lemma NumberTwoDigits(n: nat)
    requires n < 100
    ensures Number(TwoDigits(n)) == n
  {
    var s := TwoDigits(n);
    assert s[..1] == [DigitChar(n / 10)];
    assert s[..1][..0] == "";
    assert Number(s[..1]) == n / 10;
  }

  lemma BigEnough()
    ensures Pow10(16) == 1_0000_0000_0000_0000
  {
    assert Pow10(4) == 10000;
    PowAdd(4, 4);
    PowAdd(8, 8);
  }

  /** Every amount of paise, up to sixteen digits of rupees, reads back from its text. */
  lemma MinorRoundTrip(paise: nat)
    requires paise / 100 < Pow10(16)
    ensures InrMinor(MinorToInr(paise)) == Some(paise)
  {
    hide Number, Show, Pow10, DecimalParts, Assemble;
    MinorText(paise / 100, paise % 100);
    TwoPlaces();
    assert MinorToInr(paise) == Assemble(Show(paise / 100), TwoDigits(paise % 100)) by {
      JoinedText(paise);
    }
  }

  lemma TwoPlaces()
    ensures Pow10(0) == 1 && Pow10(2) == 100
  {
  }

  lemma JoinedText(paise: nat)
    ensures MinorToInr(paise) == Assemble(Show(paise / 100), TwoDigits(paise % 100))
  {
  }

  lemma PartsOf(text: string, whole: string, fraction: string)
    requires Point(text) == |whole| && Whole(text) == whole && Fraction(text) == fraction && |text| == |whole| + 3
    requires 1 <= |whole| <= 16 && IsDigits(whole) && |fraction| == 2 && IsDigits(fraction)
    ensures DecimalParts(text, 2) == Some(Decimal(Number(whole + fraction), 2))
  {
    hide Point, Number;
  }

  lemma MinorNumber(rupees: nat, rest: nat)
    requires rest < 100
    ensures Number(Show(rupees) + TwoDigits(rest)) == rupees * 100 + rest
    ensures IsDigits(Show(rupees)) && IsDigits(TwoDigits(rest)) && |TwoDigits(rest)| == 2
  {
    var whole, fraction := Show(rupees), TwoDigits(rest);
    NumberTwoDigits(rest);
    TwoPlaces();
    hide Number, Show, TwoDigits, Pow10;
    NumberConcat(whole, fraction);
    NumberShow(rupees);
  }

  lemma MinorText(rupees: nat, rest: nat)
    requires rupees < Pow10(16) && rest < 100
    ensures DecimalParts(Assemble(Show(rupees), TwoDigits(rest)), 2) == Some(Decimal(rupees * 100 + rest, 2))
  {
    var whole, fraction := Show(rupees), TwoDigits(rest);
    hide Number, Show, Pow10, Point, Whole, Fraction, TwoDigits, DecimalParts;
    ShowLength(rupees, 16);
    MinorNumber(rupees, rest);
    AssembledParts(whole, fraction);
    assert |Assemble(whole, fraction)| == |whole| + 3;
    PartsOf(Assemble(whole, fraction), whole, fraction);
  }

  /** An accepted rupee amount is rewritten to a fixed form, which is accepted and stays as it is. */
  lemma InrAmountTwice(s: string)
    requires InrAmount(s).Some?
    ensures InrAmount(InrAmount(s).value) == InrAmount(s) && InrMinor(InrAmount(s).value) == InrMinor(s)
  {
    BigEnough();
    MinorRoundTrip(InrMinor(s).value);
  }

  // ---- conversion -----------------------------------------------------------------------------------------------

  function Numerator(a: Decimal, r: Decimal): nat { a.coefficient * r.coefficient * 100 }

  function Denominator(a: Decimal, r: Decimal): nat { Pow10(a.scale + r.scale) }

  function Rounded(numerator: nat, denominator: nat): nat
    requires denominator > 0
  {
    (numerator + denominator / 2) / denominator
  }

  /** `convertToInr`, in paise. */
  function Convert(a: Decimal, r: Decimal): Option<nat> {
    if a.coefficient == 0 || r.coefficient == 0 then None
    else
      var paise := Rounded(Numerator(a, r), Denominator(a, r));
      if 0 < paise <= MAX_INR_MINOR then Some(paise) else None
  }

  function ConvertToInr(amount: string, rate: string): Option<string> {
    var a, r := DecimalParts(amount, 4), DecimalParts(rate, 14);
    if a.None? || r.None? || Convert(a.value, r.value).None? then None
    else Some(MinorToInr(Convert(a.value, r.value).value))
  }

  /** What half-up rounding is: the nearest whole number, the upper one of two. */
  predicate HalfUp(numerator: nat, denominator: nat, q: nat) {
    2 * q * denominator <= 2 * numerator + denominator < 2 * (q + 1) * denominator
  }

  lemma PowEven(n: nat)
    requires n > 0
    ensures Pow10(n) % 2 == 0
  {
    PowStep(n);
    TimesTenEven(Pow10(n - 1));
  }

  lemma TimesTenEven(x: nat)
    ensures 10 * x % 2 == 0
  {
    assert 10 * x / 2 == 5 * x;
  }

  lemma HalfUpFrom(numerator: nat, d: nat, h: nat, q: nat)
    requires (d == 2 * h || (d == 1 && h == 0)) && q * d <= numerator + h < (q + 1) * d
    ensures HalfUp(numerator, d, q)
  {
    Twice(q, d);
    Twice(q + 1, d);
  }

  lemma Twice(q: nat, d: nat)
    ensures 2 * q * d == 2 * (q * d)
  {
  }

  lemma RoundedHalfUp(numerator: nat, n: nat)
    ensures HalfUp(numerator, Pow10(n), Rounded(numerator, Pow10(n)))
  {
    var d := Pow10(n);
    if n > 0 {
      PowEven(n);
    } else {
      assert d == 1;
    }
    hide Pow10, HalfUp;
    DivisionParts(numerator + d / 2, d);
    HalfUpFrom(numerator, d, d / 2, Rounded(numerator, d));
  }

  lemma DivisionParts(x: nat, d: nat)
    requires d > 0
    ensures x / d * d <= x < (x / d + 1) * d
  {
  }

  /** Larger values round to no smaller results: (p over d) at most (q over e). */
  lemma HalfUpMonotone(p: nat, d: nat, x: nat, q: nat, e: nat, y: nat)
    requires d > 0 && e > 0 && HalfUp(p, d, x) && HalfUp(q, e, y) && p * e <= q * d
    ensures x <= y
  {
  }

  lemma MultiplyOrder(a: nat, b: nat, k: nat)
    requires a <= b
    ensures a * k <= b * k
  {
  }

  /** Conversion is exact half-up rounding to the paisa. */
  lemma ConvertExact(a: Decimal, r: Decimal)
    requires Convert(a, r).Some?
    ensures HalfUp(Numerator(a, r), Denominator(a, r), Convert(a, r).value)
  {
    hide Rounded, HalfUp, Pow10;
    RoundedHalfUp(Numerator(a, r), a.scale + r.scale);
  }

  /** Products keep the order of values. */
  lemma ProductsOrdered(a: Decimal, r: Decimal, b: Decimal, t: Decimal)
    requires AtMost(a, b) && AtMost(r, t)
    ensures Numerator(a, r) * Denominator(b, t) <= Numerator(b, t) * Denominator(a, r)
  {
    PowAdd(a.scale, r.scale);
    PowAdd(b.scale, t.scale);
    var x, y, z, w := a.coefficient * Pow10(b.scale), b.coefficient * Pow10(a.scale), r.coefficient * Pow10(t.scale),
    t.coefficient * Pow10(r.scale);
    MultiplyOrder(x, y, z);
    MultiplyOrder(z, w, y);
    assert x * z <= y * w;
    Regroup(a.coefficient, r.coefficient, Pow10(b.scale), Pow10(t.scale));
    Regroup(b.coefficient, t.coefficient, Pow10(a.scale), Pow10(r.scale));
  }

  lemma Regroup(a: nat, r: nat, p: nat, q: nat)
    ensures a * r * 100 * (p * q) == a * p * (r * q) * 100
  {
  }

  /** Conversion is monotone in both arguments. */
  lemma ConvertMonotone(a: Decimal, r: Decimal, b: Decimal, t: Decimal)
    requires AtMost(a, b) && AtMost(r, t) && Convert(a, r).Some? && Convert(b, t).Some?
    ensures Convert(a, r).value <= Convert(b, t).value
  {
    ConvertExact(a, r);
    ConvertExact(b, t);
    ProductsOrdered(a, r, b, t);
    HalfUpMonotone(Numerator(a, r), Denominator(a, r), Convert(a, r).value, Numerator(b, t), Denominator(b, t),
                   Convert(b, t).value);
  }

  /** Leading and trailing zeros do not matter: texts of equal value convert alike. */
  lemma ConvertByValue(amount: string, rate: string, amount2: string, rate2: string)
    requires ValidText(amount, 4) && ValidText(rate, 14) && ValidText(amount2, 4) && ValidText(rate2, 14)
    requires SameValue(DecimalParts(amount, 4).value, DecimalParts(amount2, 4).value)
    requires SameValue(DecimalParts(rate, 14).value, DecimalParts(rate2, 14).value)
    ensures ConvertToInr(amount, rate) == ConvertToInr(amount2, rate2)
  {
    var a, r, b, t := DecimalParts(amount, 4).value, DecimalParts(rate, 14).value, DecimalParts(amount2, 4).value,
    DecimalParts(rate2, 14).value;
    SamePositive(a, b);
    SamePositive(r, t);
    RoundedByValue(a, r, b, t);
    hide Rounded, DecimalParts, SameValue, Numerator, Denominator, MinorToInr;
  }

  lemma RoundedByValue(a: Decimal, r: Decimal, b: Decimal, t: Decimal)
    requires SameValue(a, b) && SameValue(r, t)
    ensures Rounded(Numerator(a, r), Denominator(a, r)) == Rounded(Numerator(b, t), Denominator(b, t))
  {
    RoundedHalfUp(Numerator(a, r), a.scale + r.scale);
    RoundedHalfUp(Numerator(b, t), b.scale + t.scale);
    ProductsOrdered(a, r, b, t);
    ProductsOrdered(b, t, a, r);
    hide Rounded, Numerator, HalfUp, Pow10, SameValue;
    var x, y := Rounded(Numerator(a, r), Denominator(a, r)), Rounded(Numerator(b, t), Denominator(b, t));
    HalfUpMonotone(Numerator(a, r), Denominator(a, r), x, Numerator(b, t), Denominator(b, t), y);
    HalfUpMonotone(Numerator(b, t), Denominator(b, t), y, Numerator(a, r), Denominator(a, r), x);
  }

  lemma SamePositive(a: Decimal, b: Decimal)
    requires SameValue(a, b)
    ensures a.coefficient == 0 <==> b.coefficient == 0
  {
  }
}
