/**
 What the 28-digit decimal context does to the closing part of a fill.

 Elsewhere the ledger is exact. Here each operation of the closing branch, and of the check that the journal makes on its
 results, rounds as the source's default context does.
 */
module LedgerRounding {
  import opened Common
  import opened Integers
  import opened Reals
  import opened Decimals
  import opened Portfolio
  import opened Positions

  const CONTEXT: nat := 28

  function Mul(x: Decimal, y: Decimal): Decimal { Round(ExactMul(x, y), CONTEXT) }

  function Sub(x: Decimal, y: Decimal): Decimal { Round(ExactAdd(x, Negate(y)), CONTEXT) }

  function SignOf(long: bool): Decimal {
    Decimal(if long then 1 else -1, 0)
  }

  /** The amounts of a closing fill, and the realized amount that the journal expects. */
  datatype Closing = Closing(realized: Decimal, costBasis: Decimal, tradeValue: Decimal, expected: Decimal)

  function Close(long: bool, closed: Decimal, average: Decimal, price: Decimal): Closing {
    var costBasis, tradeValue := Mul(closed, average), Mul(closed, price);
    Closing(Mul(Mul(closed, Sub(price, average)), SignOf(long)), costBasis, tradeValue,
            Mul(Sub(tradeValue, costBasis), SignOf(long)))
  }

  /** Equal as numbers. */
  predicate Same(x: Decimal, y: Decimal) {
    var e := Least(x.exp, y.exp);
    Units(x, e) == Units(y, e)
  }

  /** The journal's check of the realized amount. */
  predicate Passes(c: Closing) {
    Same(c.realized, c.expected)
  }

  // ----- when nothing is rounded

  /** Quantity and prices, the prices in a common unit, have at most 28 digits together. */
  ghost predicate Short(closed: Decimal, average: Decimal, price: Decimal, m: nat, n: nat) {
    var base := Least(average.exp, price.exp);
    && m + n <= CONTEXT
    && 0 <= closed.coef < Pow10(m)
    && 0 <= Units(average, base) < Pow10(n)
    && 0 <= Units(price, base) < Pow10(n)
  }

  function ExactSub(x: Decimal, y: Decimal): Decimal {
    ExactAdd(x, Negate(y))
  }

  lemma RoundKeeps(d: Decimal, digits: nat)
    requires FitsIn(d, digits) && digits <= CONTEXT
    ensures Round(d, CONTEXT) == d
  {
    hide Pow10;
    Pow10Monotone(digits, CONTEXT);
  }

  lemma {:induction false} SignKeeps(x: Decimal, long: bool, digits: nat)
    requires FitsIn(x, digits) && digits <= CONTEXT
    ensures Mul(x, SignOf(long)) == ExactMul(x, SignOf(long))
  {
    hide Pow10, Round;
    assert Times(x.coef, SignOf(long).coef) == if long then x.coef else -x.coef;
    RoundKeeps(ExactMul(x, SignOf(long)), digits);
  }

  /** The product of a quantity and something that is short in a smaller unit fits. */
  lemma {:induction false} ShortProduct(closed: Decimal, x: Decimal, base: int, m: nat, n: nat)
    requires m + n <= CONTEXT && 0 <= closed.coef < Pow10(m)
    requires base <= x.exp && Magnitude(Units(x, base)) < Pow10(n)
    ensures FitsIn(ExactMul(closed, x), m + n)
  {
    hide Units, Pow10, Times;
    CoefficientBelowUnits(x, base, Pow10(n));
    ProductDigits(closed.coef, Magnitude(x.coef), m, n);
    TimesSigned(closed.coef, x.coef);
  }

  /** The cost taken from the value leaves the quantity times the price difference, digit by digit. */
  lemma {:induction false} SameDifference(closed: Decimal, average: Decimal, price: Decimal)
    ensures ExactSub(ExactMul(closed, price), ExactMul(closed, average)) == ExactMul(closed, ExactSub(price, average))
  {
    hide Pow10, Times;
    var base := Least(average.exp, price.exp);
    var p, a := Pow10(price.exp - base), Pow10(average.exp - base);
    TimesAssociates(closed.coef, price.coef, p);
    TimesAssociates(closed.coef, -average.coef, a);
    TimesNegated(closed.coef, average.coef);
    TimesDistributesLeft(closed.coef, Times(price.coef, p), Times(-average.coef, a));
  }

  /**
   As long as quantity and prices are short, nothing is rounded: the check passes, and every amount is the exact one.
   */
  lemma {:induction false} ShortClosingsAreExact(long: bool, closed: Decimal, average: Decimal, price: Decimal, m: nat, n: nat)
    requires Short(closed, average, price, m, n)
    ensures var c := Close(long, closed, average, price);
            && Passes(c)
            && c.costBasis == ExactMul(closed, average) && c.tradeValue == ExactMul(closed, price)
            && c.realized == c.expected == ExactMul(ExactMul(closed, ExactSub(price, average)), SignOf(long))
  {
    hide Units, Pow10, Round, ExactMul, ExactAdd;
    var base := Least(average.exp, price.exp);
    var c := Close(long, closed, average, price);
    ShortProduct(closed, average, base, m, n);
    RoundKeeps(ExactMul(closed, average), m + n);
    ShortProduct(closed, price, base, m, n);
    RoundKeeps(ExactMul(closed, price), m + n);
    DifferenceBelow(price, average, base, Pow10(n));
    RoundKeeps(ExactSub(price, average), n);
    ExactSubAtBase(price, average);
    ShortProduct(closed, ExactSub(price, average), base, m, n);
    var product := ExactMul(closed, ExactSub(price, average));
    RoundKeeps(product, m + n);
    SignKeeps(product, long, m + n);
    SameDifference(closed, average, price);
  }

  lemma ExactSubAtBase(x: Decimal, y: Decimal)
    ensures var d, base := ExactSub(x, y), Least(y.exp, x.exp);
            d.exp == base && Units(d, base) == d.coef
  {
    hide Times;
    TimesOne(ExactSub(x, y).coef);
  }

  lemma {:induction false} RealOfSign(long: bool)
    ensures Real(SignOf(long)) == if long then 1.0 else -1.0
  {
    TenZero();
  }

  /** Short closings are those of the exact model: same cost, same value, same realized PnL. */
  lemma {:induction false} ShortClosingsAreTheLedger(
      q: real, fill: Fill, closed: Decimal, average: Decimal, price: Decimal, m: nat, n: nat)
    requires q != 0.0 && Sign(q) != Sign(SignedQuantity(fill))
    requires Short(closed, average, price, m, n)
    requires Real(price) == fill.price && Real(closed) == if Abs(q) <= fill.quantity then Abs(q) else fill.quantity
    ensures var c := Close(q > 0.0, closed, average, price);
            var a := ApplyWeightedAverageFill(q, Some(Real(average)), fill);
            && Passes(c) && a.Ok?
            && Real(c.costBasis) == a.value.closedCostBasis
            && Real(c.tradeValue) == a.value.closedTradeValue
            && Real(c.realized) == a.value.realizedTradingPnl
  {
    hide Real, Short, Close, Passes, Value, ExactMul, ExactAdd;
    var long, difference := q > 0.0, ExactSub(price, average);
    ShortClosingsAreExact(long, closed, average, price, m, n);
    RealOfProduct(closed, average);
    RealOfProduct(closed, price);
    RealOfSum(price, Negate(average));
    RealOfNegation(average);
    RealOfProduct(closed, difference);
    RealOfProduct(ExactMul(closed, difference), SignOf(long));
    RealOfSign(long);
    ValueOne(Value(Real(closed), fill.price - Real(average)));
    ValueMinusOne(Value(Real(closed), fill.price - Real(average)));
  }

  lemma ValueMinusOne(x: real)
    ensures Value(x, -1.0) == -x
  {
  }

  // ----- an input that is rejected

  const ROUNDED_AVERAGE := Decimal(3666666666666666666666666667, -28)
  const ROUNDED_COST := Decimal(1833333333333333333333333334, -27)

  lemma LargePowers()
    ensures Pow10(28) == 10_000_000_000_000_000_000_000_000_000
    ensures Pow10(27) == 1_000_000_000_000_000_000_000_000_000
    ensures Pow10(26) == 100_000_000_000_000_000_000_000_000
    ensures Pow10(1) == 10 && Pow10(0) == 1
  {
    assert Pow10(13) == 10_000_000_000_000;
    Pow10Add(13, 13);
    assert Pow10(28) == 10 * Pow10(27) && Pow10(27) == 10 * Pow10(26);
  }

  /** Five times the rounded average needs 29 digits, and loses the last. */
  lemma {:induction false} CostIsRounded()
    ensures Mul(Decimal(5, 0), ROUNDED_AVERAGE) == ROUNDED_COST
  {
    LargePowers();
    assert Pow10(29) == 10 * Pow10(28);
    hide Pow10, Digits;
    DigitsExact(18333333333333333333333333335, 29);
    assert ExactMul(Decimal(5, 0), ROUNDED_AVERAGE) == Decimal(18333333333333333333333333335, -28);
    assert HalfEven(18333333333333333333333333335, 10) == 1833333333333333333333333334;
  }

  lemma {:induction false} RealizedIsExact()
    ensures Mul(Mul(Decimal(5, 0), Sub(Decimal(3, -1), ROUNDED_AVERAGE)), SignOf(true)) == Decimal(-3333333333333333333333333335, -28)
  {
    LargePowers();
    hide Pow10, Digits;
    assert ExactAdd(Decimal(3, -1), Negate(ROUNDED_AVERAGE)) == Decimal(-666666666666666666666666667, -28);
    assert ExactMul(Decimal(5, 0), Decimal(-666666666666666666666666667, -28)) == Decimal(-3333333333333333333333333335, -28);
  }

  lemma {:induction false} ExpectedIsRounded()
    ensures Mul(Decimal(5, 0), Decimal(3, -1)) == Decimal(15, -1)
    ensures Mul(Sub(Decimal(15, -1), ROUNDED_COST), SignOf(true)) == Decimal(-333333333333333333333333334, -27)
  {
    LargePowers();
    hide Pow10, Digits;
    assert ExactAdd(Decimal(15, -1), Negate(ROUNDED_COST)) == Decimal(-333333333333333333333333334, -27);
  }

  /**
   One unit bought at 0.7 and five at 0.3 average 2.2 / 6, and the 28 digits nearest to that are those of
   `ROUNDED_AVERAGE`. Selling five at 0.3 then realizes one amount by the position and another by the journal, which
   rejects the fill.
   */
  lemma {:induction false} RoundedAverageIsRejected()
    ensures 2 * Magnitude(22 * 1_000_000_000_000_000_000_000_000_000 - 6 * ROUNDED_AVERAGE.coef) < 6
    ensures var c := Close(true, Decimal(5, 0), ROUNDED_AVERAGE, Decimal(3, -1));
            && c.realized == Decimal(-3333333333333333333333333335, -28)
            && c.expected == Decimal(-333333333333333333333333334, -27)
            && !Passes(c)
  {
    hide Mul, Sub;
    CostIsRounded();
    RealizedIsExact();
    ExpectedIsRounded();
    LargePowers();
    hide Pow10;
  }
}
