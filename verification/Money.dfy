/** Price conversion: USD to cogs (orchestrator/services/order_service.py) and cogs to AGI
    (common/utils.py), both rounding half to even, over exact fractions. */
module Money {

  function Abs(x: int): nat {
    if x < 0 then -x else x
  }

  // n / den to the nearest integer, ties to the even one.
  function HalfEven(n: int, den: nat): int
    requires den >= 1
  {
    var q, r := n / den, n % den;
    if 2 * r < den then q
    else if 2 * r > den then q + 1
    else if q % 2 == 0 then q else q + 1
  }

  /** A price or a factor as an exact fraction. */
  datatype Fraction = Fraction(num: int, den: nat)

  predicate Proper(f: Fraction) {
    f.den >= 1
  }

  lemma ProductOfDens(a: nat, b: nat)
    requires a >= 1 && b >= 1
    ensures a * b >= 1
  {
  }

  function Product(a: Fraction, b: Fraction): (p: Fraction)
    requires Proper(a) && Proper(b)
    ensures Proper(p)
  {
    ProductOfDens(a.den, b.den);
    Fraction(a.num * b.num, a.den * b.den)
  }

  function CalculateAmountInCogs(amount: Fraction, factor: Fraction): int
    requires Proper(amount) && Proper(factor)
  {
    var p := Product(amount, factor);
    HalfEven(p.num, p.den)
  }

  const PRECISION: nat := 8

  function Pow10(n: nat): (p: nat)
    ensures p >= 1
  {
    if n == 0 then 1 else 10 * Pow10(n - 1)
  }

  function Digits(c: nat): nat
    decreases c
  {
    if c < 10 then 1 else 1 + Digits(c / 10)
  }

  // The weight of the last digit kept when c is cut to eight significant digits.
  function Unit(c: int): nat {
    var d := Digits(Abs(c));
    if d <= PRECISION then 1 else Pow10(d - PRECISION)
  }

  // What cogs_to_agi returns, counted in cogs: one AGI is 10^8 of them, and scaling is exact.
  function CogsToAgi(c: int): int {
    if Digits(Abs(c)) > PRECISION then HalfEven(c, Unit(c)) * Unit(c) else c
  }

  // ---------- rounding ----------

  /** What rounding half to even means: the nearest integer, the even one of two. */
  predicate IsHalfEven(m: int, n: int, den: nat) {
    && 2 * Abs(m * den - n) <= den
    && (2 * Abs(m * den - n) == den ==> m % 2 == 0)
  }

  lemma TimesMonotone(a: int, b: int, u: nat)
    requires a <= b
    ensures a * u <= b * u
  {
  }

  lemma Distribute(a: int, b: int, u: int)
    ensures (a - b) * u == a * u - b * u
  {
  }

  lemma Near(m: int, q: int, den: nat, r: nat)
    requires r < den && 2 * Abs(m * den - (q * den + r)) <= den
    ensures m == q || m == q + 1
  {
    Distribute(m, q, den);
    if m < q {
      TimesMonotone(m - q, -1, den);
    } else if m > q + 1 {
      TimesMonotone(2, m - q, den);
    }
  }

  lemma HalfEvenIff(m: int, n: int, den: nat)
    requires den >= 1
    ensures m == HalfEven(n, den) <==> IsHalfEven(m, n, den)
  {
    var q, r := n / den, n % den;
    assert n == q * den + r;
    assert (q + 1) * den == q * den + den;
    if IsHalfEven(m, n, den) {
      Near(m, q, den, r);
    }
  }

  lemma QuotientsOrdered(a: int, b: int, den: nat)
    requires den >= 1 && a <= b
    ensures a / den <= b / den && (a / den == b / den ==> a % den <= b % den)
  {
    var q, q', r, r' := a / den, b / den, a % den, b % den;
    assert a == q * den + r && b == q' * den + r';
    if q' < q {
      assert (q' + 1) * den == q' * den + den;
      TimesMonotone(q' + 1, q, den);
    }
  }

  lemma HalfEvenMonotone(a: int, b: int, den: nat)
    requires den >= 1 && a <= b
    ensures HalfEven(a, den) <= HalfEven(b, den)
  {
    QuotientsOrdered(a, b, den);
  }

  lemma HalfEvenExact(m: int, den: nat)
    requires den >= 1
    ensures HalfEven(m * den, den) == m
  {
    HalfEvenIff(m, m * den, den);
  }

  lemma HalfEvenOdd(n: int, den: nat)
    requires den >= 1
    ensures HalfEven(-n, den) == -HalfEven(n, den)
  {
    var m := HalfEven(n, den);
    HalfEvenIff(m, n, den);
    Distribute(0, m, den);
    assert (-m) * den - (-n) == -(m * den - n);
    assert IsHalfEven(-m, -n, den);
    HalfEvenIff(-m, -n, den);
  }

  // ---------- digits ----------

  lemma {:induction false} DigitsBound(c: nat)
    ensures Digits(c) >= 1 && c < Pow10(Digits(c)) && (c >= 1 ==> Pow10(Digits(c) - 1) <= c)
  {
    if c >= 10 {
      DigitsBound(c / 10);
    }
  }

  lemma {:induction false} DigitsMonotone(a: nat, b: nat)
    requires a <= b
    ensures Digits(a) <= Digits(b)
  {
    if a >= 10 {
      DigitsMonotone(a / 10, b / 10);
    }
  }

  lemma {:induction false} Pow10Monotone(m: nat, n: nat)
    requires m <= n
    ensures Pow10(m) <= Pow10(n)
  {
    if m < n {
      Pow10Monotone(m, n - 1);
    }
  }

  lemma TenOutside(a: nat, b: nat)
    ensures a * (10 * b) == 10 * (a * b)
  {
  }

  lemma {:induction false} Pow10Split(m: nat, n: nat)
    ensures Pow10(m + n) == Pow10(m) * Pow10(n)
  {
    if n > 0 {
      Pow10Split(m, n - 1);
      TenOutside(Pow10(m), Pow10(n - 1));
    }
  }

  // ---------- cogs to AGI ----------

  /** In one formula: the nearest multiple of the unit, which is at least one. */
  lemma AgiIsMultiple(c: int)
    ensures Unit(c) >= 1 && CogsToAgi(c) == HalfEven(c, Unit(c)) * Unit(c)
  {
  }

  /** Main result on the error: at most half the unit of the last digit kept, and none below
      10^8 cogs. */
  lemma AgiError(c: int)
    ensures 2 * Abs(CogsToAgi(c) - c) <= (if Digits(Abs(c)) <= 8 then 0 else Pow10(Digits(Abs(c)) - 8))
    ensures Abs(c) < 100000000 ==> CogsToAgi(c) == c
  {
    var u := Unit(c);
    AgiIsMultiple(c);
    HalfEvenIff(HalfEven(c, u), c, u);
    if Abs(c) < 100000000 {
      DigitsBound(Abs(c));
      if Digits(Abs(c)) > 8 {
        Pow10Monotone(8, Digits(Abs(c)) - 1);
      }
    }
  }

  /** Nothing is lost exactly when the unit divides the amount. */
  lemma AgiExactIff(c: int)
    ensures CogsToAgi(c) == c <==> Digits(Abs(c)) <= 8 || c % Pow10(Digits(Abs(c)) - 8) == 0
  {
    var u := Unit(c);
    AgiIsMultiple(c);
    if c % u == 0 {
      HalfEvenExact(c / u, u);
    } else if CogsToAgi(c) == c {
      MultipleHasNoRemainder(HalfEven(c, u), u);
    }
  }

  lemma MultipleHasNoRemainder(m: int, u: nat)
    requires u >= 1
    ensures (m * u) % u == 0
  {
    var q, r := m * u / u, m * u % u;
    Distribute(m, q, u);
    if m > q {
      TimesMonotone(1, m - q, u);
    } else if m < q {
      TimesMonotone(m - q, -1, u);
    }
  }

  /** What is shown: the multiple of 10^(d-8) nearest to an amount of d digits, of two the even one,
      so that no more than eight significant digits are kept, or a one and eight zeros. */
  lemma AgiHasEightDigits(c: int)
    ensures var u, m := if Digits(Abs(c)) <= 8 then 1 else Pow10(Digits(Abs(c)) - 8), HalfEven(c, Unit(c));
            CogsToAgi(c) == m * u && IsHalfEven(m, c, u) && Abs(m) <= 100000000
  {
    var d := Digits(Abs(c));
    AgiIsMultiple(c);
    HalfEvenIff(HalfEven(c, Unit(c)), c, Unit(c));
    DigitsBound(Abs(c));
    assert Pow10(8) == 100000000;
    if d <= 8 {
      Pow10Monotone(d, 8);
    } else {
      Pow10Split(8, d - 8);
      var u, most: int := Pow10(d - 8), Pow10(8);
      Distribute(0, most, u);
      HalfEvenMonotone(c, most * u, u);
      HalfEvenMonotone((-most) * u, c, u);
      HalfEvenExact(most, u);
      HalfEvenExact(-most, u);
    }
  }

  // An amount of d digits stays between the powers of ten around it.
  lemma AgiWithinDecade(c: nat)
    requires c >= 1
    ensures Pow10(Digits(c) - 1) <= CogsToAgi(c) <= Pow10(Digits(c))
    ensures Digits(c) >= 1
  {
    var d := Digits(c);
    DigitsBound(c);
    if d > 8 {
      var u := Pow10(d - 8);
      Pow10Split(8, d - 8);
      Pow10Split(7, d - 8);
      HalfEvenMonotone(c, Pow10(8) * u, u);
      HalfEvenMonotone(Pow10(7) * u, c, u);
      HalfEvenExact(Pow10(8), u);
      HalfEvenExact(Pow10(7), u);
      TimesMonotone(Pow10(7), HalfEven(c, u), u);
      TimesMonotone(HalfEven(c, u), Pow10(8), u);
    }
  }

  lemma AgiMonotoneOnNat(a: nat, b: nat)
    requires a <= b
    ensures CogsToAgi(a) <= CogsToAgi(b)
  {
    DigitsMonotone(a, b);
    AgiIsMultiple(a);
    AgiIsMultiple(b);
    if Digits(a) == Digits(b) {
      HalfEvenMonotone(a, b, Unit(a));
      TimesMonotone(HalfEven(a, Unit(a)), HalfEven(b, Unit(b)), Unit(a));
    } else {
      AgiWithinDecade(b);
      Pow10Monotone(Digits(a), Digits(b) - 1);
      if a >= 1 {
        AgiWithinDecade(a);
      }
    }
  }

  lemma AgiOdd(c: int)
    ensures CogsToAgi(-c) == -CogsToAgi(c)
  {
    assert Abs(-c) == Abs(c);
    AgiIsMultiple(c);
    AgiIsMultiple(-c);
    HalfEvenOdd(c, Unit(c));
    assert (-HalfEven(c, Unit(c))) * Unit(c) == -(HalfEven(c, Unit(c)) * Unit(c));
  }

  /** Main result on order: a larger amount is never shown as a smaller one. */
  lemma AgiMonotone(a: int, b: int)
    requires a <= b
    ensures CogsToAgi(a) <= CogsToAgi(b)
  {
    if 0 <= a {
      AgiMonotoneOnNat(a, b);
    } else {
      AgiOdd(a);
      if b <= 0 {
        AgiOdd(b);
        AgiMonotoneOnNat(-b, -a);
      } else {
        AgiMonotoneOnNat(0, -a);
        AgiMonotoneOnNat(0, b);
      }
    }
  }

  // ---------- both conversions ----------

  /** The conversion to cogs is the half-even rounding of price times factor, hence off by at most
      half a cog. */
  lemma CogsAreNearest(amount: Fraction, factor: Fraction)
    requires Proper(amount) && Proper(factor)
    ensures IsHalfEven(CalculateAmountInCogs(amount, factor), amount.num * factor.num, amount.den * factor.den)
  {
    var exact := Product(amount, factor);
    HalfEvenIff(CalculateAmountInCogs(amount, factor), exact.num, exact.den);
  }

  /** Main result on both: the AGI shown for a price differs from the exact product by at most the
      sum of the two errors, half a cog and half the unit of the last digit kept. */
  lemma TotalError(amount: Fraction, factor: Fraction)
    requires Proper(amount) && Proper(factor)
    ensures var num, den, c := amount.num * factor.num, amount.den * factor.den, CalculateAmountInCogs(amount, factor);
            2 * Abs(CogsToAgi(c) * den - num)
              <= den + (if Digits(Abs(c)) <= 8 then 0 else Pow10(Digits(Abs(c)) - 8)) * den
  {
    var exact, c := Product(amount, factor), CalculateAmountInCogs(amount, factor);
    CogsAreNearest(amount, factor);
    AgiError(c);
    var e := if Digits(Abs(c)) <= 8 then 0 else Pow10(Digits(Abs(c)) - 8);
    ErrorsAdd(CogsToAgi(c), c, exact.num, exact.den, e);
  }

  lemma ErrorsAdd(a: int, c: int, n: int, den: nat, e: nat)
    requires 2 * Abs(a - c) <= e && 2 * Abs(c * den - n) <= den
    ensures 2 * Abs(a * den - n) <= den + e * den
  {
    var least: int := 0 - e as int;
    Distribute(a, c, den);
    TimesMonotone(2 * (a - c), e, den);
    TimesMonotone(least, 2 * (a - c), den);
    assert (2 * (a - c)) * den == 2 * ((a - c) * den);
    Distribute(0, e, den);
  }
}
