/**
 Decimal floating point: a coefficient and an exponent, exact arithmetic on them, and rounding to a context.

 Signed zeros and the exponent limits of a context are not modelled.
 */
module Decimals {
  import opened Integers
  import opened Reals

  datatype Decimal = Decimal(coef: int, exp: int)

  function Pow10(n: nat): (p: nat)
    ensures p >= 1
  {
    if n == 0 then 1 else 10 * Pow10(n - 1)
  }

  /** The number of decimal digits of a coefficient; zero has one. */
  function Digits(n: nat): (d: nat)
    ensures d >= 1
  {
    if n < 10 then 1 else 1 + Digits(n / 10)
  }

  // ----- a context of `precision` digits

  predicate FitsIn(d: Decimal, precision: nat) {
    Magnitude(d.coef) < Pow10(precision)
  }

  function HalfEven(n: nat, unit: nat): nat
    requires unit > 0
  {
    var q, r := n / unit, n % unit;
    if 2 * r > unit || (2 * r == unit && q % 2 == 1) then q + 1 else q
  }

  /** Rounding to the precision of a context; it leaves a coefficient that fits alone. */
  function Round(d: Decimal, precision: nat): Decimal {
    if FitsIn(d, precision) then d
    else
      var m := Magnitude(d.coef);
      var surplus := if Digits(m) > precision then Digits(m) - precision else 0;
      var q: int := HalfEven(m, Pow10(surplus));
      if q == Pow10(precision) then Decimal(if d.coef < 0 then -(q / 10) else q / 10, d.exp + surplus + 1)
      else Decimal(if d.coef < 0 then -q else q, d.exp + surplus)
  }

  // ----- exact arithmetic

  function Least(a: int, b: int): int {
    if a <= b then a else b
  }

  /** The coefficient of `d` when its exponent is lowered to `base`. */
  function Units(d: Decimal, base: int): int
    requires base <= d.exp
  {
    Times(d.coef, Pow10(d.exp - base))
  }

  function ExactMul(x: Decimal, y: Decimal): Decimal {
    Decimal(Times(x.coef, y.coef), x.exp + y.exp)
  }

  function ExactAdd(x: Decimal, y: Decimal): Decimal {
    var e := Least(x.exp, y.exp);
    Decimal(Units(x, e) + Units(y, e), e)
  }

  function Negate(x: Decimal): Decimal {
    Decimal(-x.coef, x.exp)
  }

  // ----- powers of ten

  lemma {:induction false} Pow10Add(a: nat, b: nat)
    ensures Pow10(a + b) == Times(Pow10(a), Pow10(b))
  {
    if a > 0 {
      Pow10Add(a - 1, b);
      assert Pow10(a + b) == 10 * (Pow10(a - 1) * Pow10(b));
    }
  }

  lemma {:induction false} Pow10Monotone(a: nat, b: nat)
    requires a <= b
    ensures Pow10(a) <= Pow10(b)
    decreases b - a
  {
    if a < b {
      Pow10Monotone(a, b - 1);
    }
  }

  lemma {:induction false} DigitsBound(n: nat)
    ensures n < Pow10(Digits(n))
  {
    if n >= 10 {
      DigitsBound(n / 10);
    }
  }

  lemma {:induction false} DigitsExact(n: nat, d: nat)
    requires d >= 2 && Pow10(d - 1) <= n < Pow10(d)
    ensures Digits(n) == d
  {
    assert Pow10(d) == 10 * Pow10(d - 1);
    assert Pow10(d - 1) == 10 * Pow10(d - 2);
    if d > 2 {
      DigitsExact(n / 10, d - 1);
    } else {
      assert n / 10 < 10;
    }
  }

  lemma {:induction false} DigitsAtMostIff(n: nat, d: nat)
    requires d >= 1
    ensures Digits(n) <= d <==> n < Pow10(d)
  {
    if n < 10 {
      Pow10Monotone(1, d);
      assert Pow10(1) == 10 * Pow10(0);
    } else {
      assert Pow10(d) == 10 * Pow10(d - 1);
      if d == 1 {
        assert Pow10(0) == 1;
      } else {
        DigitsAtMostIff(n / 10, d - 1);
      }
    }
  }

  /** Rounding to units is to the nearest one, and to the even one of two. */
  lemma {:induction false} HalfEvenIsNearest(n: nat, unit: nat)
    requires unit > 0
    ensures var q := HalfEven(n, unit);
            && 2 * Magnitude(n - q * unit) <= unit
            && (2 * Magnitude(n - q * unit) == unit ==> q % 2 == 0)
  {
    var q, r := n / unit, n % unit;
    assert n == q * unit + r;
    assert (q + 1) * unit == q * unit + unit;
  }

  /** A coefficient of at most `digits` digits, scaled up by `shift`. */
  lemma {:induction false} ScaledBelow(n: nat, digits: nat, shift: nat, limit: nat)
    requires n < Pow10(digits) && digits + shift <= limit
    ensures 0 <= Times(n, Pow10(shift)) < Pow10(limit)
  {
    hide Times, Pow10;
    TimesBelow(n, Pow10(shift), Pow10(digits), Pow10(shift));
    Pow10Add(digits, shift);
    Pow10Monotone(digits + shift, limit);
  }

  lemma {:induction false} ProductDigits(x: nat, y: nat, a: nat, b: nat)
    requires x < Pow10(a) && y < Pow10(b)
    ensures 0 <= Times(x, y) < Pow10(a + b)
  {
    hide Times, Pow10;
    TimesBelow(x, y, Pow10(a), Pow10(b));
    Pow10Add(a, b);
  }

  // ----- units

  lemma {:induction false} UnitsLower(d: Decimal, mid: int, base: int)
    requires base <= mid <= d.exp
    ensures Units(d, base) == Times(Units(d, mid), Pow10(mid - base))
  {
    hide Times, Pow10;
    Pow10Add(d.exp - mid, mid - base);
    TimesAssociates(d.coef, Pow10(d.exp - mid), Pow10(mid - base));
  }

  /** Addition is exact in every unit below both exponents. */
  lemma {:induction false} UnitsOfSum(x: Decimal, y: Decimal, base: int)
    requires base <= x.exp && base <= y.exp
    ensures base <= ExactAdd(x, y).exp
    ensures Units(ExactAdd(x, y), base) == Units(x, base) + Units(y, base)
  {
    hide Times, Pow10;
    var e := Least(x.exp, y.exp);
    UnitsLower(x, e, base);
    UnitsLower(y, e, base);
    TimesDistributes(Units(x, e), Units(y, e), Pow10(e - base));
  }

  lemma {:induction false} UnitsOfNegation(d: Decimal, base: int)
    requires base <= d.exp
    ensures Units(Negate(d), base) == -Units(d, base)
  {
    TimesDistributes(d.coef, 0, Pow10(d.exp - base));
  }

  /** A coefficient is never larger than the same value in a smaller unit. */
  lemma {:induction false} CoefficientBelowUnits(d: Decimal, base: int, limit: nat)
    requires base <= d.exp && Magnitude(Units(d, base)) < limit
    ensures Magnitude(d.coef) < limit
  {
    var p := Pow10(d.exp - base);
    if d.coef >= 0 {
      assert d.coef <= d.coef * p;
    } else {
      assert d.coef * p <= d.coef;
    }
  }

  /** The difference of two amounts is no wider than the wider of them in a common unit. */
  lemma {:induction false} DifferenceBelow(x: Decimal, y: Decimal, base: int, limit: nat)
    requires base <= x.exp && base <= y.exp
    requires 0 <= Units(x, base) < limit && 0 <= Units(y, base) < limit
    ensures Magnitude(ExactAdd(x, Negate(y)).coef) < limit
  {
    hide Units;
    UnitsOfNegation(y, base);
    UnitsOfSum(x, Negate(y), base);
    CoefficientBelowUnits(ExactAdd(x, Negate(y)), base, limit);
  }

  // ----- the values

  /** Ten to any integer power. */
  ghost function Ten(e: int): real
    decreases if e < 0 then -e else e
  {
    if e == 0 then 1.0 else if e > 0 then 10.0 * Ten(e - 1) else Ten(e + 1) / 10.0
  }

  /** The number that a decimal denotes. */
  ghost function Real(d: Decimal): real {
    Value(d.coef as real, Ten(d.exp))
  }

  lemma ValueOfInts(x: int, y: int)
    ensures Value(x as real, y as real) == Times(x, y) as real
  {
  }

  lemma {:induction false} TenStep(e: int)
    ensures Ten(e + 1) == 10.0 * Ten(e)
  {
  }

  lemma {:induction false} TenPow(e: int, n: nat)
    ensures Ten(e + n) == Value(Pow10(n) as real, Ten(e))
  {
    if n > 0 {
      TenPow(e, n - 1);
      TenStep(e + n - 1);
    }
  }

  lemma Reciprocal(p: real, x: real, z: real)
    requires Value(p, z) == 1.0
    ensures Value(Value(p, x), z) == x
  {
    hide Value;
    ValueLaws(p, x, z);
    ValueLaws(x, z, p);
    ValueLaws(z, p, x);
    ValueLaws(x, p, z);
    ValueOne(x);
  }

  lemma TenZero()
    ensures Ten(0) == 1.0
  {
  }

  lemma {:induction false} TenAdd(a: int, b: int)
    ensures Ten(a + b) == Value(Ten(a), Ten(b))
  {
    hide Ten, Value, Pow10;
    TenZero();
    if b >= 0 {
      TenPow(a, b);
      TenPow(0, b);
      ValueOne(Pow10(b) as real);
      ValueLaws(Ten(a), Ten(b), 1.0);
    } else {
      TenPow(a + b, -b);
      TenPow(b, -b);
      Reciprocal(Pow10(-b) as real, Ten(a + b), Ten(b));
    }
  }

  lemma {:induction false} RealInUnits(d: Decimal, base: int)
    requires base <= d.exp
    ensures Real(d) == Value(Units(d, base) as real, Ten(base))
  {
    hide Value, Ten, Pow10, Times;
    var p := Pow10(d.exp - base);
    TenPow(base, d.exp - base);
    ValueLaws(d.coef as real, p as real, Ten(base));
    ValueOfInts(d.coef, p);
  }

  lemma {:induction false} RealOfSum(x: Decimal, y: Decimal)
    ensures Real(ExactAdd(x, y)) == Real(x) + Real(y)
  {
    hide Value, Ten, Pow10, Times;
    var e := Least(x.exp, y.exp);
    RealInUnits(x, e);
    RealInUnits(y, e);
    ValueLaws(Units(x, e) as real, Units(y, e) as real, Ten(e));
  }

  lemma {:induction false} RealOfNegation(x: Decimal)
    ensures Real(Negate(x)) == -Real(x)
  {
  }

  lemma {:induction false} RealOfProduct(x: Decimal, y: Decimal)
    ensures Real(ExactMul(x, y)) == Value(Real(x), Real(y))
  {
    hide Value, Ten, Times;
    var a, b, s, t := x.coef as real, y.coef as real, Ten(x.exp), Ten(y.exp);
    TenAdd(x.exp, y.exp);
    ValueOfInts(x.coef, y.coef);
    Interchange(a, b, s, t);
  }

  lemma Interchange(a: real, b: real, s: real, t: real)
    ensures Value(Value(a, b), Value(s, t)) == Value(Value(a, s), Value(b, t))
  {
    hide Value;
    ValueLaws(Value(a, b), s, t);
    ValueLaws(a, b, s);
    ValueLaws(b, s, t);
    ValueLaws(a, s, b);
    ValueLaws(Value(a, s), b, t);
  }

  // ----- rounding

  lemma {:induction false} RoundedFits(m: nat, precision: nat, surplus: nat)
    requires m < Pow10(precision + surplus)
    ensures HalfEven(m, Pow10(surplus)) <= Pow10(precision)
  {
    var unit := Pow10(surplus);
    Pow10Add(precision, surplus);
    hide Pow10;
    QuotientBelow(m, unit, Pow10(precision));
  }

  lemma QuotientBelow(m: nat, unit: nat, limit: nat)
    requires unit > 0 && m < Times(limit, unit)
    ensures m / unit < limit
  {
    DivMod(m, unit);
    TimesLaws(unit, limit, 0);
    if limit <= m / unit {
      TimesMonotone(unit, limit, m / unit);
    }
  }

  /** What is kept of a coefficient with surplus digits: no more than the precision allows, and the nearest there is. */
  lemma {:induction false} KeptDigits(m: nat, precision: nat)
    requires precision >= 1 && m >= Pow10(precision)
    ensures Digits(m) > precision
    ensures var surplus: nat := Digits(m) - precision;
            var q := HalfEven(m, Pow10(surplus));
            q <= Pow10(precision) && 2 * Magnitude(m - Times(q, Pow10(surplus))) <= Pow10(surplus)
  {
    DigitsAtMostIff(m, precision);
    var surplus: nat := Digits(m) - precision;
    DigitsBound(m);
    RoundedFits(m, precision, surplus);
    HalfEvenIsNearest(m, Pow10(surplus));
  }

  /** How far a rounded decimal is from the coefficient it came from, measured in the old exponent. */
  lemma {:induction false} RoundShape(d: Decimal, precision: nat, surplus: nat, q: nat)
    requires !FitsIn(d, precision) && Digits(Magnitude(d.coef)) == precision + surplus
    requires q == HalfEven(Magnitude(d.coef), Pow10(surplus))
    ensures var carry := q == Pow10(precision);
            var kept := if carry then q / 10 else q;
            Round(d, precision) == Decimal(if d.coef < 0 then 0 - kept else kept, d.exp + surplus + if carry then 1 else 0)
  {
    hide HalfEven, Digits, Pow10;
  }

  lemma {:induction false} ShapeIsNearest(d: Decimal, r: Decimal, precision: nat, surplus: nat, q: nat)
    requires precision >= 1 && q <= Pow10(precision)
    requires 2 * Magnitude(Magnitude(d.coef) - Times(q, Pow10(surplus))) <= Pow10(surplus)
    requires var carry := q == Pow10(precision);
             var kept := if carry then q / 10 else q;
             r == Decimal(if d.coef < 0 then 0 - kept else kept, d.exp + surplus + if carry then 1 else 0)
    ensures FitsIn(r, precision) && d.exp + surplus <= r.exp
    ensures 2 * Magnitude(Units(r, d.exp) - d.coef) <= Pow10(surplus)
  {
    assert Pow10(surplus + 1) == 10 * Pow10(surplus) && Pow10(precision) == 10 * Pow10(precision - 1);
    hide Pow10, Times;
    var carry := q == Pow10(precision);
    RoundedUnits(d.coef, q, Pow10(surplus), Pow10(surplus + 1), carry);
    assert r.exp - d.exp == if carry then surplus + 1 else surplus;
  }

  /**
   Rounding, written out: a coefficient that fits is left alone; any other loses its surplus digits to the nearest, with its
   sign, and fits afterwards.
   */
  lemma {:induction false} RoundIsNearest(d: Decimal, precision: nat)
    requires precision >= 1
    ensures var r := Round(d, precision);
            && FitsIn(r, precision) && d.exp <= r.exp
            && (FitsIn(d, precision) ==> r == d)
            && (!FitsIn(d, precision) ==>
                  var surplus := Digits(Magnitude(d.coef)) - precision;
                  && surplus > 0 && d.exp + surplus <= r.exp
                  && 2 * Magnitude(Units(r, d.exp) - d.coef) <= Pow10(surplus))
  {
    if !FitsIn(d, precision) {
      var m := Magnitude(d.coef);
      KeptDigits(m, precision);
      var surplus: nat := Digits(m) - precision;
      var q := HalfEven(m, Pow10(surplus));
      RoundShape(d, precision, surplus, q);
      hide Round, Pow10, Digits, HalfEven, Units;
      ShapeIsNearest(d, Round(d, precision), precision, surplus, q);
    }
  }

  /** The kept digits, moved back up, are as far from the coefficient as their magnitude is from its own. */
  lemma RoundedUnits(coef: int, q: nat, unit: nat, ten: nat, carry: bool)
    requires ten == 10 * unit && (carry ==> q % 10 == 0)
    ensures var kept := if carry then q / 10 else q;
            var signed := if coef < 0 then -kept else kept;
            Magnitude(Times(signed, if carry then ten else unit) - coef) == Magnitude(Magnitude(coef) - Times(q, unit))
  {
    if carry {
      assert q == 10 * (q / 10);
      assert q / 10 * ten == q * unit;
    }
  }
}
