/**
 The whole journal entry of a fill in the 28-digit context: every amount, every check that the journal makes on them,
 and the validator that sums the lines.
 */
module EntryRounding {
  import opened Common
  import opened Integers
  import opened Reals
  import opened Decimals
  import opened Portfolio
  import opened Positions
  import opened LedgerRounding

  const ZERO := Decimal(0, 0)

  function Add(x: Decimal, y: Decimal): Decimal { Round(ExactAdd(x, y), CONTEXT) }

  function Minus(x: Decimal): Decimal { Round(Negate(x), CONTEXT) }

  /** Numerically at most. */
  predicate AtMost(x: Decimal, y: Decimal) {
    var e := Least(x.exp, y.exp);
    Units(x, e) <= Units(y, e)
  }

  /** A fill, with its fee and rebate or zero. */
  datatype Trade = Trade(buy: bool, quantity: Decimal, price: Decimal, fee: Decimal, rebate: Decimal)

  /** The open quantity and the average of a position on the other side, which the fill reduces. */
  datatype Held = Held(quantity: Decimal, average: Decimal)

  datatype Amounts = Amounts(
    notional: Decimal, closedQuantity: Decimal, openedQuantity: Decimal,
    realized: Decimal, costBasis: Decimal, tradeValue: Decimal, openedNotional: Decimal)

  /** What the projection computes; `None` is a fill that opens a position or adds to it. */
  function Project(t: Trade, held: Option<Held>): Amounts {
    var notional, size := Mul(t.quantity, t.price), Round(t.quantity, CONTEXT);
    if held.None? then Amounts(notional, ZERO, size, ZERO, ZERO, ZERO, Mul(size, t.price))
    else
      var open := Round(held.value.quantity, CONTEXT);
      var closedQuantity := if AtMost(open, size) then open else size;
      var surplus := Sub(size, open);
      var openedQuantity := if surplus.coef > 0 then surplus else ZERO;
      var c := Close(!t.buy, closedQuantity, held.value.average, t.price);
      Amounts(notional, closedQuantity, openedQuantity, c.realized, c.costBasis, c.tradeValue, Mul(openedQuantity, t.price))
  }

  /** The journal's checks of the amounts. */
  predicate ChecksPass(t: Trade, a: Amounts) {
    && Same(a.notional, Mul(t.quantity, t.price))
    && Same(Add(a.closedQuantity, a.openedQuantity), t.quantity)
    && Same(a.tradeValue, Mul(a.closedQuantity, t.price))
    && Same(a.openedNotional, Mul(a.openedQuantity, t.price))
    && Same(a.realized, Mul(Sub(a.tradeValue, a.costBasis), SignOf(!t.buy)))
    && a.notional.coef >= 0 && a.costBasis.coef >= 0 && a.tradeValue.coef >= 0 && a.openedNotional.coef >= 0
    && a.closedQuantity.coef >= 0 && a.openedQuantity.coef >= 0
  }

  function Lines(t: Trade, a: Amounts): seq<Decimal> {
    [Mul(SignOf(!t.buy), a.notional)]
    + (if a.closedQuantity.coef > 0 then [Minus(Mul(SignOf(!t.buy), a.costBasis)), Minus(a.realized)] else [])
    + (if a.openedQuantity.coef > 0 then [Mul(SignOf(t.buy), a.openedNotional)] else [])
    + (if t.fee.coef > 0 then [Minus(t.fee), t.fee] else [])
    + (if t.rebate.coef > 0 then [t.rebate, Minus(t.rebate)] else [])
  }

  /** The validator's running total. */
  function RunningTotal(lines: seq<Decimal>): Decimal {
    if lines == [] then ZERO else Add(RunningTotal(lines[..|lines| - 1]), lines[|lines| - 1])
  }

  // ----- measuring decimals in a common unit

  /** `d` is exactly `v` units of ten to the `base`. */
  ghost predicate Measures(d: Decimal, base: int, v: int) {
    base <= d.exp && Units(d, base) == v
  }

  ghost predicate Narrow(v: int) {
    Magnitude(v) < Pow10(CONTEXT)
  }

  lemma {:induction false} NarrowIsKept(d: Decimal, base: int, v: int)
    requires Measures(d, base, v) && Narrow(v)
    ensures Round(d, CONTEXT) == d
  {
    hide Units, Pow10;
    CoefficientBelowUnits(d, base, Pow10(CONTEXT));
  }

  lemma {:induction false} ProductMeasures(x: Decimal, y: Decimal, a: int, b: int, v: int, w: int)
    requires Measures(x, a, v) && Measures(y, b, w)
    ensures Measures(ExactMul(x, y), a + b, Times(v, w))
  {
    hide Times, Pow10;
    var p, q := Pow10(x.exp - a), Pow10(y.exp - b);
    Pow10Add(x.exp - a, y.exp - b);
    assert x.exp + y.exp - (a + b) == (x.exp - a) + (y.exp - b);
    FourFactors(x.coef, y.coef, p, q);
  }

  lemma FourFactors(x: int, y: int, p: int, q: int)
    ensures Times(Times(x, y), Times(p, q)) == Times(Times(x, p), Times(y, q))
  {
    assert (x * y) * (p * q) == (x * p) * (y * q);
  }

  lemma {:induction false} MulMeasures(x: Decimal, y: Decimal, a: int, b: int, v: int, w: int)
    requires Measures(x, a, v) && Measures(y, b, w) && Narrow(Times(v, w))
    ensures Mul(x, y) == ExactMul(x, y) && Measures(Mul(x, y), a + b, Times(v, w))
  {
    hide Measures, Narrow, Round, ExactMul, Times;
    ProductMeasures(x, y, a, b, v, w);
    NarrowIsKept(ExactMul(x, y), a + b, Times(v, w));
  }

  lemma {:induction false} SumMeasures(x: Decimal, y: Decimal, base: int, v: int, w: int)
    requires Measures(x, base, v) && Measures(y, base, w)
    ensures Measures(ExactAdd(x, y), base, v + w)
  {
    hide Units;
    UnitsOfSum(x, y, base);
  }

  lemma {:induction false} NegationMeasures(x: Decimal, base: int, v: int)
    requires Measures(x, base, v)
    ensures Measures(Negate(x), base, -v)
  {
    hide Units;
    UnitsOfNegation(x, base);
  }

  lemma {:induction false} AddMeasures(x: Decimal, y: Decimal, base: int, v: int, w: int)
    requires Measures(x, base, v) && Measures(y, base, w) && Narrow(v + w)
    ensures Measures(Add(x, y), base, v + w)
  {
    hide Measures, Narrow, Round;
    SumMeasures(x, y, base, v, w);
    NarrowIsKept(ExactAdd(x, y), base, v + w);
  }

  lemma {:induction false} MinusMeasures(x: Decimal, base: int, v: int)
    requires Measures(x, base, v) && Narrow(v)
    ensures Measures(Minus(x), base, -v)
  {
    hide Measures, Pow10, Round;
    NegationMeasures(x, base, v);
    NarrowIsKept(Negate(x), base, -v);
  }

  lemma {:induction false} SubMeasures(x: Decimal, y: Decimal, base: int, v: int, w: int)
    requires Measures(x, base, v) && Measures(y, base, w) && Narrow(v - w)
    ensures Measures(Sub(x, y), base, v - w)
  {
    hide Measures, Narrow, Round;
    NegationMeasures(y, base, w);
    SumMeasures(x, Negate(y), base, v, -w);
    NarrowIsKept(ExactAdd(x, Negate(y)), base, v - w);
  }

  function WithSign(positive: bool, v: int): int {
    if positive then v else -v
  }

  lemma {:induction false} SignMeasures(x: Decimal, positive: bool, base: int, v: int)
    requires Measures(x, base, v) && Narrow(v)
    ensures Measures(Mul(x, SignOf(positive)), base, WithSign(positive, v))
    ensures Measures(Mul(SignOf(positive), x), base, WithSign(positive, v))
  {
    var s := if positive then 1 else -1;
    assert Measures(SignOf(positive), 0, s);
    assert Times(v, s) == Times(s, v) == WithSign(positive, v);
    hide Measures, Round, Pow10, Times;
    MulMeasures(x, SignOf(positive), base, 0, v, s);
    MulMeasures(SignOf(positive), x, 0, base, s, v);
  }

  /** Measured in a common unit, numbers compare as their measures do. */
  lemma {:induction false} MeasuresCompare(x: Decimal, y: Decimal, base: int, v: int, w: int)
    requires Measures(x, base, v) && Measures(y, base, w)
    ensures Same(x, y) <==> v == w
    ensures AtMost(x, y) <==> v <= w
  {
    hide Times, Pow10;
    var e := Least(x.exp, y.exp);
    UnitsLower(x, e, base);
    UnitsLower(y, e, base);
    TimesOrders(Units(x, e), Units(y, e), Pow10(e - base));
  }

  lemma {:induction false} MeasureSign(x: Decimal, base: int, v: int)
    requires Measures(x, base, v)
    ensures (x.coef > 0 <==> v > 0) && (x.coef >= 0 <==> v >= 0) && (x.coef == 0 <==> v == 0)
  {
    TimesOrders(x.coef, 0, Pow10(x.exp - base));
    TimesOrders(0, x.coef, Pow10(x.exp - base));
  }

  lemma ZeroMeasures(base: int)
    requires base <= 0
    ensures Measures(ZERO, base, 0)
  {
  }

  // ----- the validator

  /** The lines measure up to the values, one by one. */
  ghost predicate AllMeasure(lines: seq<Decimal>, base: int, values: seq<int>) {
    |lines| == |values| && forall i :: 0 <= i < |lines| ==> Measures(lines[i], base, values[i])
  }

  function Sum(values: seq<int>): int {
    if values == [] then 0 else Sum(values[..|values| - 1]) + values[|values| - 1]
  }

  function Weight(values: seq<int>): nat {
    if values == [] then 0 else Weight(values[..|values| - 1]) + Magnitude(values[|values| - 1])
  }

  lemma {:induction false} SumBelowWeight(values: seq<int>)
    ensures Magnitude(Sum(values)) <= Weight(values)
  {
    if values != [] {
      SumBelowWeight(values[..|values| - 1]);
    }
  }

  /**
   As long as the amounts of an entry, without their signs and in a common unit, sum to at most 28 digits, the running
   total never rounds: the validator accepts the entry if and only if its amounts cancel exactly.
   */
  lemma {:induction false} RunningTotalIsExact(lines: seq<Decimal>, base: int, values: seq<int>, digits: nat)
    requires base <= 0 && AllMeasure(lines, base, values) && Weight(values) < Pow10(digits) && digits <= CONTEXT
    ensures Measures(RunningTotal(lines), base, Sum(values))
    ensures Same(RunningTotal(lines), ZERO) <==> Sum(values) == 0
  {
    hide Measures, Round, Pow10;
    ZeroMeasures(base);
    if lines != [] {
      var n := |lines| - 1;
      RunningTotalIsExact(lines[..n], base, values[..n], digits);
      SumBelowWeight(values);
      Pow10Monotone(digits, CONTEXT);
      AddMeasures(RunningTotal(lines[..n]), lines[n], base, Sum(values[..n]), values[n]);
    }
    MeasuresCompare(RunningTotal(lines), ZERO, base, Sum(values), 0);
  }

  lemma {:induction false} SumConcat(u: seq<int>, v: seq<int>)
    ensures Sum(u + v) == Sum(u) + Sum(v) && Weight(u + v) == Weight(u) + Weight(v)
  {
    if v == [] {
      assert u + v == u;
    } else {
      SumConcat(u, v[..|v| - 1]);
      assert (u + v)[..|u + v| - 1] == u + v[..|v| - 1];
    }
  }

  /** The lines come to the total, and to no more than the weight without their signs. */
  ghost predicate ComeTo(lines: seq<Decimal>, base: int, total: int, weight: nat) {
    exists values :: AllMeasure(lines, base, values) && Sum(values) == total && Weight(values) <= weight
  }

  lemma {:induction false} NoLines(base: int, weight: nat)
    ensures ComeTo([], base, 0, weight)
  {
    assert AllMeasure([], base, []);
  }

  lemma {:induction false} OneLine(d: Decimal, base: int, v: int)
    requires Measures(d, base, v)
    ensures ComeTo([d], base, v, Magnitude(v))
  {
    hide Measures;
    assert AllMeasure([d], base, [v]);
    assert [v][..0] == [];
    assert Sum([v]) == v && Weight([v]) == Magnitude(v);
  }

  lemma {:induction false} MoreLines(u: seq<Decimal>, v: seq<Decimal>, base: int, s: int, w: nat, s': int, w': nat)
    requires ComeTo(u, base, s, w) && ComeTo(v, base, s', w')
    ensures ComeTo(u + v, base, s + s', w + w')
  {
    hide Measures;
    var x :| AllMeasure(u, base, x) && Sum(x) == s && Weight(x) <= w;
    var y :| AllMeasure(v, base, y) && Sum(y) == s' && Weight(y) <= w';
    SumConcat(x, y);
    assert AllMeasure(u + v, base, x + y);
  }

  lemma {:induction false} TwoLines(d: Decimal, e: Decimal, base: int, v: int, w: int)
    requires Measures(d, base, v) && Measures(e, base, w)
    ensures ComeTo([d, e], base, v + w, Magnitude(v) + Magnitude(w))
  {
    hide Measures, ComeTo;
    OneLine(d, base, v);
    OneLine(e, base, w);
    MoreLines([d], [e], base, v, Magnitude(v), w, Magnitude(w));
    assert [d] + [e] == [d, e];
  }

  // ----- the amounts of a fill

  const DIGITS: nat := 26

  /** Everything measured: quantities in one unit, prices in another, fee and rebate in their product. */
  datatype Measured = Measured(qb: int, pb: int, quantity: nat, price: nat, fee: nat, rebate: nat, held: nat, average: nat) {
    function ClosedUnits(): nat { if held <= quantity then held else quantity }
    function OpenedUnits(): nat { quantity - ClosedUnits() }
  }

  /**
   The fill and the position in these units: a quantity and a price have at most 26 digits together, and fee and rebate
   no more than those two. The units are no larger than one.
   */
  ghost predicate Small(t: Trade, h: Option<Held>, u: Measured, m: nat, n: nat) {
    && u.qb <= 0 && u.pb <= 0 && m + n <= DIGITS
    && Measures(t.quantity, u.qb, u.quantity) && u.quantity < Pow10(m)
    && Measures(t.price, u.pb, u.price) && u.price < Pow10(n)
    && Measures(t.fee, u.qb + u.pb, u.fee) && u.fee < Pow10(m + n)
    && Measures(t.rebate, u.qb + u.pb, u.rebate) && u.rebate < Pow10(m + n)
    && (if h.None? then u.held == 0 && u.average == 0
        else && Measures(h.value.quantity, u.qb, u.held) && u.held < Pow10(m)
             && Measures(h.value.average, u.pb, u.average) && u.average < Pow10(n))
  }

  /** The amounts of the projection, measured. */
  ghost predicate Projected(t: Trade, a: Amounts, u: Measured) {
    var c, o, base := u.ClosedUnits(), u.OpenedUnits(), u.qb + u.pb;
    && Measures(a.notional, base, Times(u.quantity, u.price))
    && Measures(a.closedQuantity, u.qb, c) && Measures(a.openedQuantity, u.qb, o)
    && Measures(a.costBasis, base, Times(c, u.average))
    && Measures(a.tradeValue, base, Times(c, u.price))
    && Measures(a.realized, base, WithSign(!t.buy, Times(c, u.price - u.average)))
    && Measures(a.openedNotional, base, Times(o, u.price))
  }

  lemma {:induction false} FewDigits(v: int)
    requires Magnitude(v) < Pow10(DIGITS)
    ensures Narrow(v) && Narrow(8 * v)
  {
    assert Pow10(28) == 10 * Pow10(27) && Pow10(27) == 10 * Pow10(26);
    hide Pow10;
  }

  lemma {:induction false} ProductIsNarrow(x: nat, y: int, m: nat, n: nat)
    requires x < Pow10(m) && Magnitude(y) < Pow10(n) && m + n <= DIGITS
    ensures Magnitude(Times(x, y)) < Pow10(DIGITS) && Narrow(Times(x, y))
  {
    hide Pow10, Times;
    ProductDigits(x, Magnitude(y), m, n);
    TimesSigned(x, y);
    Pow10Monotone(m + n, DIGITS);
    FewDigits(Times(x, y));
  }

  lemma {:induction false} ShortIsNarrow(v: int, m: nat)
    requires Magnitude(v) < Pow10(m) && m <= DIGITS
    ensures Narrow(v)
  {
    hide Pow10;
    Pow10Monotone(m, CONTEXT);
  }

  lemma {:induction false} CloseMeasures(long: bool, x: Decimal, average: Decimal, price: Decimal, u: Measured, c: nat, m: nat, n: nat)
    requires Measures(x, u.qb, c) && c < Pow10(m) && m + n <= DIGITS
    requires Measures(average, u.pb, u.average) && u.average < Pow10(n)
    requires Measures(price, u.pb, u.price) && u.price < Pow10(n)
    ensures var k, base := Close(long, x, average, price), u.qb + u.pb;
            && Measures(k.costBasis, base, Times(c, u.average))
            && Measures(k.tradeValue, base, Times(c, u.price))
            && Measures(k.realized, base, WithSign(long, Times(c, u.price - u.average)))
            && Measures(k.expected, base, WithSign(long, Times(c, u.price - u.average)))
  {
    hide Measures, Narrow, Pow10, Round, Mul, Sub, Times;
    var difference, base := u.price - u.average, u.qb + u.pb;
    ProductIsNarrow(c, u.average, m, n);
    ProductIsNarrow(c, u.price, m, n);
    ProductIsNarrow(c, difference, m, n);
    ShortIsNarrow(difference, n);
    MulMeasures(x, average, u.qb, u.pb, c, u.average);
    MulMeasures(x, price, u.qb, u.pb, c, u.price);
    SubMeasures(price, average, u.pb, u.price, u.average);
    MulMeasures(x, Sub(price, average), u.qb, u.pb, c, difference);
    SignMeasures(Mul(x, Sub(price, average)), long, base, Times(c, difference));
    TimesDistributesLeft(c, difference, u.average);
    SubMeasures(Mul(x, price), Mul(x, average), base, Times(c, u.price), Times(c, u.average));
    SignMeasures(Sub(Mul(x, price), Mul(x, average)), long, base, Times(c, difference));
  }

  lemma {:induction false} OpeningMeasures(t: Trade, u: Measured, m: nat, n: nat)
    requires Small(t, None, u, m, n)
    ensures Projected(t, Project(t, None), u)
  {
    hide Measures, Narrow, Pow10, Round, Mul, Times;
    ProductIsNarrow(u.quantity, u.price, m, n);
    ShortIsNarrow(u.quantity, m);
    NarrowIsKept(t.quantity, u.qb, u.quantity);
    MulMeasures(t.quantity, t.price, u.qb, u.pb, u.quantity, u.price);
    ZeroMeasures(u.qb);
    ZeroMeasures(u.qb + u.pb);
    ZeroTimes(u.price);
    ZeroTimes(u.average);
    ZeroTimes(u.price - u.average);
  }

  lemma ZeroTimes(x: int)
    ensures Times(0, x) == 0
  {
  }

  lemma {:induction false} ClosingMeasures(t: Trade, h: Held, u: Measured, m: nat, n: nat)
    requires Small(t, Some(h), u, m, n)
    ensures Projected(t, Project(t, Some(h)), u)
  {
    hide Measures, Narrow, Pow10, Round, Mul, Sub, Times, Close, AtMost;
    var c, o := u.ClosedUnits(), u.OpenedUnits();
    ProductIsNarrow(u.quantity, u.price, m, n);
    ProductIsNarrow(o, u.price, m, n);
    ShortIsNarrow(u.quantity, m);
    ShortIsNarrow(u.held, m);
    NarrowIsKept(t.quantity, u.qb, u.quantity);
    NarrowIsKept(h.quantity, u.qb, u.held);
    MulMeasures(t.quantity, t.price, u.qb, u.pb, u.quantity, u.price);
    MeasuresCompare(h.quantity, t.quantity, u.qb, u.held, u.quantity);
    ShortIsNarrow(u.quantity - u.held, m);
    SubMeasures(t.quantity, h.quantity, u.qb, u.quantity, u.held);
    MeasureSign(Sub(t.quantity, h.quantity), u.qb, u.quantity - u.held);
    ZeroMeasures(u.qb);
    var a := Project(t, Some(h));
    assert Measures(a.closedQuantity, u.qb, c);
    assert Measures(a.openedQuantity, u.qb, o);
    CloseMeasures(!t.buy, a.closedQuantity, h.average, t.price, u, c, m, n);
    MulMeasures(a.openedQuantity, t.price, u.qb, u.pb, o, u.price);
  }

  // ----- the entry

  lemma {:induction false} ProjectedPassesChecks(t: Trade, h: Option<Held>, a: Amounts, u: Measured, m: nat, n: nat)
    requires Small(t, h, u, m, n) && Projected(t, a, u)
    ensures ChecksPass(t, a)
  {
    hide Measures, Narrow, Pow10, Round, Mul, Sub, Add, Times, Same;
    var c, o, base := u.ClosedUnits(), u.OpenedUnits(), u.qb + u.pb;
    var difference := u.price - u.average;
    ProductIsNarrow(u.quantity, u.price, m, n);
    ProductIsNarrow(c, u.price, m, n);
    ProductIsNarrow(o, u.price, m, n);
    ProductIsNarrow(c, difference, m, n);
    ShortIsNarrow(u.quantity, m);
    MulMeasures(t.quantity, t.price, u.qb, u.pb, u.quantity, u.price);
    MeasuresCompare(a.notional, Mul(t.quantity, t.price), base, Times(u.quantity, u.price), Times(u.quantity, u.price));
    AddMeasures(a.closedQuantity, a.openedQuantity, u.qb, c, o);
    MeasuresCompare(Add(a.closedQuantity, a.openedQuantity), t.quantity, u.qb, u.quantity, u.quantity);
    MulMeasures(a.closedQuantity, t.price, u.qb, u.pb, c, u.price);
    MeasuresCompare(a.tradeValue, Mul(a.closedQuantity, t.price), base, Times(c, u.price), Times(c, u.price));
    MulMeasures(a.openedQuantity, t.price, u.qb, u.pb, o, u.price);
    MeasuresCompare(a.openedNotional, Mul(a.openedQuantity, t.price), base, Times(o, u.price), Times(o, u.price));
    TimesDistributesLeft(c, difference, u.average);
    SubMeasures(a.tradeValue, a.costBasis, base, Times(c, u.price), Times(c, u.average));
    SignMeasures(Sub(a.tradeValue, a.costBasis), !t.buy, base, Times(c, difference));
    MeasuresCompare(a.realized, Mul(Sub(a.tradeValue, a.costBasis), SignOf(!t.buy)), base,
                    WithSign(!t.buy, Times(c, difference)), WithSign(!t.buy, Times(c, difference)));
    MeasureSign(a.notional, base, Times(u.quantity, u.price));
    MeasureSign(a.costBasis, base, Times(c, u.average));
    MeasureSign(a.tradeValue, base, Times(c, u.price));
    MeasureSign(a.openedNotional, base, Times(o, u.price));
    MeasureSign(a.closedQuantity, u.qb, c);
    MeasureSign(a.openedQuantity, u.qb, o);
  }

  /** A pair of lines that cancel, or none at all. */
  lemma {:induction false} PairComesToNothing(d: Decimal, base: int, v: nat, minusFirst: bool, digits: nat)
    requires Measures(d, base, v) && v < Pow10(digits) && digits <= DIGITS
    ensures var pair := if minusFirst then [Minus(d), d] else [d, Minus(d)];
            ComeTo(if d.coef > 0 then pair else [], base, 0, 2 * v)
  {
    hide Measures, Narrow, Pow10, Minus, ComeTo;
    var minus: int := 0 - v;
    ShortIsNarrow(v, digits);
    MinusMeasures(d, base, v);
    TwoLines(Minus(d), d, base, minus, v);
    TwoLines(d, Minus(d), base, v, minus);
    NoLines(base, 2 * v);
  }

  lemma {:induction false} ClosedLinesComeTo(t: Trade, a: Amounts, u: Measured, m: nat, n: nat, w: nat)
    requires Projected(t, a, u) && u.ClosedUnits() < Pow10(m) && u.price < Pow10(n) && u.average < Pow10(n) && m + n <= DIGITS
    requires w == Pow10(DIGITS)
    ensures var c := u.ClosedUnits();
            var lines := if a.closedQuantity.coef > 0 then [Minus(Mul(SignOf(!t.buy), a.costBasis)), Minus(a.realized)] else [];
            ComeTo(lines, u.qb + u.pb, WithSign(t.buy, Times(c, u.price)), 2 * w)
  {
    hide Measures, Narrow, Pow10, Minus, Mul, ComeTo, Times;
    var c, base, difference := u.ClosedUnits(), u.qb + u.pb, u.price - u.average;
    ProductIsNarrow(c, u.average, m, n);
    ProductIsNarrow(c, difference, m, n);
    SignMeasures(a.costBasis, !t.buy, base, Times(c, u.average));
    var k, r := WithSign(!t.buy, Times(c, u.average)), WithSign(!t.buy, Times(c, difference));
    FewDigits(k);
    FewDigits(r);
    MinusMeasures(Mul(SignOf(!t.buy), a.costBasis), base, k);
    MinusMeasures(a.realized, base, r);
    TwoLines(Minus(Mul(SignOf(!t.buy), a.costBasis)), Minus(a.realized), base, -k, -r);
    TimesDistributesLeft(c, difference, u.average);
    MeasureSign(a.closedQuantity, u.qb, c);
    ZeroTimes(u.price);
    NoLines(base, 2 * w);
    Lighter([Minus(Mul(SignOf(!t.buy), a.costBasis)), Minus(a.realized)], base, -k - r, Magnitude(-k) + Magnitude(-r), 2 * w);
  }

  lemma Lighter(lines: seq<Decimal>, base: int, total: int, weight: nat, limit: nat)
    requires ComeTo(lines, base, total, weight) && weight <= limit
    ensures ComeTo(lines, base, total, limit)
  {
  }

  lemma {:induction false} OpenedLineComesTo(t: Trade, a: Amounts, u: Measured, m: nat, n: nat, w: nat)
    requires Projected(t, a, u) && u.OpenedUnits() < Pow10(m) && u.price < Pow10(n) && m + n <= DIGITS
    requires w == Pow10(DIGITS)
    ensures var lines := if a.openedQuantity.coef > 0 then [Mul(SignOf(t.buy), a.openedNotional)] else [];
            ComeTo(lines, u.qb + u.pb, WithSign(t.buy, Times(u.OpenedUnits(), u.price)), w)
  {
    hide Measures, Narrow, Pow10, Mul, ComeTo, Times;
    var o, base := u.OpenedUnits(), u.qb + u.pb;
    var v := WithSign(t.buy, Times(o, u.price));
    ProductIsNarrow(o, u.price, m, n);
    SignMeasures(a.openedNotional, t.buy, base, Times(o, u.price));
    OneLine(Mul(SignOf(t.buy), a.openedNotional), base, v);
    Lighter([Mul(SignOf(t.buy), a.openedNotional)], base, v, Magnitude(v), w);
    MeasureSign(a.openedQuantity, u.qb, o);
    ZeroTimes(u.price);
    NoLines(base, w);
  }

  /** Cash against position cost, realized PnL and fees: the lines of the entry cancel. */
  lemma {:induction false} LinesCancel(t: Trade, h: Option<Held>, a: Amounts, u: Measured, m: nat, n: nat)
    requires Small(t, h, u, m, n) && Projected(t, a, u)
    ensures ComeTo(Lines(t, a), u.qb + u.pb, 0, 8 * Pow10(DIGITS))
  {
    hide Measures, Narrow, Pow10, Minus, Mul, ComeTo, Times;
    var c, o, base, w := u.ClosedUnits(), u.OpenedUnits(), u.qb + u.pb, Pow10(DIGITS);
    var s0, s1, s2 := WithSign(!t.buy, Times(u.quantity, u.price)), WithSign(t.buy, Times(c, u.price)), WithSign(t.buy, Times(o, u.price));
    ProductIsNarrow(u.quantity, u.price, m, n);
    SignMeasures(a.notional, !t.buy, base, Times(u.quantity, u.price));
    OneLine(Mul(SignOf(!t.buy), a.notional), base, s0);
    ClosedLinesComeTo(t, a, u, m, n, w);
    OpenedLineComesTo(t, a, u, m, n, w);
    PairComesToNothing(t.fee, base, u.fee, true, m + n);
    PairComesToNothing(t.rebate, base, u.rebate, false, m + n);
    Pow10Monotone(m + n, DIGITS);
    var l0 := [Mul(SignOf(!t.buy), a.notional)];
    var l1 := if a.closedQuantity.coef > 0 then [Minus(Mul(SignOf(!t.buy), a.costBasis)), Minus(a.realized)] else [];
    var l2 := if a.openedQuantity.coef > 0 then [Mul(SignOf(t.buy), a.openedNotional)] else [];
    var l3 := if t.fee.coef > 0 then [Minus(t.fee), t.fee] else [];
    var l4 := if t.rebate.coef > 0 then [t.rebate, Minus(t.rebate)] else [];
    MoreLines(l0, l1, base, s0, Magnitude(s0), s1, 2 * w);
    MoreLines(l0 + l1, l2, base, s0 + s1, Magnitude(s0) + 2 * w, s2, w);
    TimesDistributes(c, o, u.price);
    assert s0 + s1 + s2 == 0;
    MoreLines(l0 + l1 + l2, l3, base, 0, Magnitude(s0) + 2 * w + w, 0, 2 * u.fee);
    MoreLines(l0 + l1 + l2 + l3, l4, base, 0, Magnitude(s0) + 2 * w + w + 2 * u.fee, 0, 2 * u.rebate);
    Lighter(Lines(t, a), base, 0, Magnitude(s0) + 2 * w + w + 2 * u.fee + 2 * u.rebate, 8 * w);
  }

  /** Lines that come to nothing, and to few enough digits, are accepted. */
  lemma {:induction false} CancelledLinesPass(lines: seq<Decimal>, base: int)
    requires base <= 0 && ComeTo(lines, base, 0, 8 * Pow10(DIGITS))
    ensures Same(RunningTotal(lines), ZERO)
  {
    assert Pow10(28) == 10 * Pow10(27) && Pow10(27) == 10 * Pow10(26);
    hide Measures, Pow10, RunningTotal;
    var values :| AllMeasure(lines, base, values) && Sum(values) == 0 && Weight(values) <= 8 * Pow10(DIGITS);
    RunningTotalIsExact(lines, base, values, CONTEXT);
  }

  /**
   As long as quantities and prices have at most 26 digits together, and fee and rebate no more in the same unit, the
   28-digit context never touches the entry of a fill: every check passes, the validator accepts, and each amount is the
   exact one. This holds of fills that open, add, reduce, close or flip.
   */
  lemma {:induction false} SmallEntriesPass(t: Trade, h: Option<Held>, u: Measured, m: nat, n: nat)
    requires Small(t, h, u, m, n)
    ensures var a := Project(t, h);
            && ChecksPass(t, a)
            && Same(a.notional, Mul(t.quantity, t.price))
            && Same(Add(a.closedQuantity, a.openedQuantity), t.quantity)
            && Same(a.tradeValue, Mul(a.closedQuantity, t.price))
            && Same(a.openedNotional, Mul(a.openedQuantity, t.price))
            && Same(a.realized, Mul(Sub(a.tradeValue, a.costBasis), SignOf(!t.buy)))
            && Same(RunningTotal(Lines(t, a)), ZERO)
            && Projected(t, a, u)
  {
    hide Project, Lines, RunningTotal, Projected, ComeTo, Same, Mul, Sub, Add;
    if h.None? {
      OpeningMeasures(t, u, m, n);
    } else {
      ClosingMeasures(t, h.value, u, m, n);
    }
    ProjectedPassesChecks(t, h, Project(t, h), u, m, n);
    LinesCancel(t, h, Project(t, h), u, m, n);
    CancelledLinesPass(Lines(t, Project(t, h)), u.qb + u.pb);
  }

  // ----- the exact model

  /** `v` units of ten to the `base`, as a number. */
  ghost function Number(v: int, base: int): real {
    Value(v as real, Ten(base))
  }

  lemma {:induction false} MeasuresAreReal(d: Decimal, base: int, v: int)
    requires Measures(d, base, v)
    ensures Real(d) == Number(v, base)
  {
    hide Units, Ten;
    RealInUnits(d, base);
  }

  lemma {:induction false} NumberOfProduct(v: int, w: int, a: int, b: int)
    ensures Number(Times(v, w), a + b) == Value(Number(v, a), Number(w, b))
  {
    hide Times, Ten, Value;
    TenAdd(a, b);
    ValueOfInts(v, w);
    Interchange(v as real, w as real, Ten(a), Ten(b));
  }

  lemma {:induction false} NumberOfDifference(v: int, w: int, base: int)
    ensures Number(v - w, base) == Number(v, base) - Number(w, base)
  {
    hide Ten, Value;
    ValueAdd((v - w) as real, w as real, Ten(base));
  }

  lemma {:induction false} TenPositive(e: int)
    ensures Ten(e) > 0.0
    decreases if e < 0 then -e else e
  {
    if e > 0 {
      TenPositive(e - 1);
    } else if e < 0 {
      TenPositive(e + 1);
    }
  }

  lemma {:induction false} NumberOrders(v: int, w: int, base: int)
    ensures v <= w <==> Number(v, base) <= Number(w, base)
  {
    TenPositive(base);
    hide Ten, Value;
    NumberOfDifference(w, v, base);
    ValueNonnegative(Magnitude(w - v) as real, Ten(base));
    ValueNegate((w - v) as real, Ten(base));
    if w < v {
      ValueNonzero((w - v) as real, Ten(base));
    }
  }

  lemma {:induction false} NumberOfSign(positive: bool, v: int, base: int)
    ensures Number(WithSign(positive, v), base) == if positive then Number(v, base) else -Number(v, base)
  {
    hide Ten, Value;
    ValueNegate(v as real, Ten(base));
  }

  /** The decimals stand for the fill and for the position that it reduces. */
  ghost predicate StandsFor(t: Trade, h: Held, q: real, fill: Fill) {
    && q != 0.0 && Sign(q) != Sign(SignedQuantity(fill))
    && t.buy == fill.side.Buy?
    && Real(t.quantity) == fill.quantity && Real(t.price) == fill.price && Real(h.quantity) == Abs(q)
  }

  /** A small fill that reduces, closes or flips: the rounded amounts are those of the exact model. */
  lemma {:induction false} SmallEntriesAreTheLedger(t: Trade, h: Held, u: Measured, m: nat, n: nat, q: real, fill: Fill)
    requires Small(t, Some(h), u, m, n) && StandsFor(t, h, q, fill)
    ensures var a := Project(t, Some(h));
            var r := ApplyWeightedAverageFill(q, Some(Real(h.average)), fill);
            && r.Ok?
            && Real(a.notional) == Value(fill.quantity, fill.price)
            && Real(a.closedQuantity) == r.value.closedQuantity && Real(a.openedQuantity) == r.value.openedQuantity
            && Real(a.costBasis) == r.value.closedCostBasis && Real(a.tradeValue) == r.value.closedTradeValue
            && Real(a.openedNotional) == r.value.openedNotional && Real(a.realized) == r.value.realizedTradingPnl
  {
    hide Measures, Project, Real, Value, Times, Pow10, Number;
    ClosingMeasures(t, h, u, m, n);
    var a, c, o, base := Project(t, Some(h)), u.ClosedUnits(), u.OpenedUnits(), u.qb + u.pb;
    MeasuresAreReal(t.quantity, u.qb, u.quantity);
    MeasuresAreReal(t.price, u.pb, u.price);
    MeasuresAreReal(h.quantity, u.qb, u.held);
    MeasuresAreReal(h.average, u.pb, u.average);
    NumberOrders(u.held, u.quantity, u.qb);
    MeasuresAreReal(a.closedQuantity, u.qb, c);
    MeasuresAreReal(a.openedQuantity, u.qb, o);
    NumberOfDifference(u.quantity, c, u.qb);
    MeasuresAreReal(a.notional, base, Times(u.quantity, u.price));
    NumberOfProduct(u.quantity, u.price, u.qb, u.pb);
    MeasuresAreReal(a.costBasis, base, Times(c, u.average));
    NumberOfProduct(c, u.average, u.qb, u.pb);
    MeasuresAreReal(a.tradeValue, base, Times(c, u.price));
    NumberOfProduct(c, u.price, u.qb, u.pb);
    MeasuresAreReal(a.openedNotional, base, Times(o, u.price));
    NumberOfProduct(o, u.price, u.qb, u.pb);
    var difference := u.price - u.average;
    MeasuresAreReal(a.realized, base, WithSign(!t.buy, Times(c, difference)));
    NumberOfSign(!t.buy, Times(c, difference), base);
    NumberOfProduct(c, difference, u.qb, u.pb);
    NumberOfDifference(u.price, u.average, u.pb);
  }

  /** The bound is met by everyday fills: three units at 0.25 with a fee of 0.01 against five units that average 0.4. */
  lemma {:induction false} EverydayFillIsSmall()
    ensures Small(Trade(false, Decimal(3, 0), Decimal(25, -2), Decimal(1, -2), ZERO), Some(Held(Decimal(5, 0), Decimal(4, -1))),
                  Measured(0, -2, 3, 25, 1, 0, 5, 40), 1, 2)
  {
  }
}
