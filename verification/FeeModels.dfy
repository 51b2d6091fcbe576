/**
 Fee arithmetic in a 128-digit decimal context.

 A decimal is a coefficient and an exponent, and every operation rounds its exact result to the context. The theorem is
 that, for inputs within the declared bounds, no operation of an estimate ever rounds.
 */
module FeeModels {
  import opened Common
  import opened Integers
  import opened Decimals
  import opened Reals

  const PRECISION: nat := 128
  const MAX_DIGITS: nat := 28
  const MAX_SCALE: nat := 18
  const MAX_ADJUSTED: nat := 36

  // ----- the context

  predicate Fits(d: Decimal) {
    FitsIn(d, PRECISION)
  }

  function Fix(d: Decimal): Decimal {
    Round(d, PRECISION)
  }

  /** Trailing zeros are dropped until the exponent reaches the ideal one. */
  function Strip(d: Decimal, ideal: int): Decimal
    decreases ideal - d.exp
  {
    if d.exp < ideal && d.coef % 10 == 0 then Strip(Decimal(d.coef / 10, d.exp + 1), ideal) else d
  }

  /** The exact quotient by 10000. */
  function ExactBps(x: Decimal): Decimal {
    Strip(Decimal(x.coef, x.exp - 4), x.exp)
  }

  function Mul(x: Decimal, y: Decimal): Decimal { Fix(ExactMul(x, y)) }

  function Add(x: Decimal, y: Decimal): Decimal { Fix(ExactAdd(x, y)) }

  function Sub(x: Decimal, y: Decimal): Decimal { Fix(ExactAdd(x, Negate(y))) }

  function Bps(x: Decimal): Decimal { Fix(ExactBps(x)) }

  // ----- the fee table

  datatype FeeError =
    | ExchangeInvalid | TooManyDigits | TooMuchScale | ExponentTooLarge | Negative | NotPositive | RuleMissing
    | NoRules | DuplicateRule

  /** `_validate_decimal_bounds`. */
  function CheckBounds(d: Decimal): Result<(), FeeError> {
    if Digits(Magnitude(d.coef)) > MAX_DIGITS then Err(TooManyDigits)
    else if (if d.exp < 0 then -d.exp else 0) > MAX_SCALE then Err(TooMuchScale)
    else if d.exp + Digits(Magnitude(d.coef)) - 1 > MAX_ADJUSTED then Err(ExponentTooLarge)
    else Ok(())
  }

  predicate Bounded(d: Decimal) {
    CheckBounds(d).Ok? && d.coef >= 0
  }

  datatype Role = MakerRole | TakerRole | OtherRole

  datatype RawRule = Rule(exchange: string, role: Role, currency: string, feeRateBps: Decimal, fixedFee: Decimal,
                          rebateRateBps: Decimal, fixedRebate: Decimal)

  /** What `FeeRule.__post_init__` accepts. */
  predicate ValidRule(r: RawRule) {
    Trimmed(r.exchange) && Bounded(r.feeRateBps) && Bounded(r.fixedFee) && Bounded(r.rebateRateBps) && Bounded(r.fixedRebate)
  }

  datatype FeeEstimate = FeeEstimate(exchange: string, role: Role, currency: string,
                                     notional: Decimal, fee: Decimal, rebate: Decimal, net: Decimal)

  predicate DistinctRules(rules: seq<RawRule>) {
    forall i, j :: 0 <= i < j < |rules| ==> (rules[i].exchange, rules[i].role) != (rules[j].exchange, rules[j].role)
  }

  /** The check of the table constructor. */
  method CheckTable(rules: seq<RawRule>) returns (r: Result<(), FeeError>)
    ensures r.Ok? <==> rules != [] && DistinctRules(rules)
  {
    if rules == [] {
      return Err(NoRules);
    }
    var seen: set<(string, Role)> := {};
    for i := 0 to |rules|
      invariant forall k :: 0 <= k < i ==> (rules[k].exchange, rules[k].role) in seen
      invariant forall key :: key in seen ==> exists k :: 0 <= k < i && (rules[k].exchange, rules[k].role) == key
      invariant DistinctRules(rules[..i])
    {
      var key := (rules[i].exchange, rules[i].role);
      if key in seen {
        return Err(DuplicateRule);
      }
      seen := seen + {key};
    }
    assert rules[..|rules|] == rules;
    return Ok(());
  }

  function RuleFor(rules: seq<RawRule>, exchange: string, role: Role): Result<RawRule, FeeError> {
    if rules == [] then Err(RuleMissing)
    else if rules[0].exchange == exchange && rules[0].role == role then Ok(rules[0])
    else RuleFor(rules[1..], exchange, role)
  }

  /** The four statements under the fee context. */
  function Charge(price: Decimal, quantity: Decimal, r: RawRule): FeeEstimate {
    var notional := Mul(price, quantity);
    var fee := Add(Bps(Mul(notional, r.feeRateBps)), r.fixedFee);
    var rebate := Add(Bps(Mul(notional, r.rebateRateBps)), r.fixedRebate);
    FeeEstimate(r.exchange, r.role, r.currency, notional, fee, rebate, Sub(fee, rebate))
  }

  function Estimate(rules: seq<RawRule>, exchange: string, price: Decimal, quantity: Decimal, role: Role)
    : Result<FeeEstimate, FeeError>
  {
    if !Trimmed(exchange) then Err(ExchangeInvalid) else
    var _ :- CheckBounds(price);
    var _ :- CheckBounds(quantity);
    if price.coef < 0 then Err(Negative)
    else if quantity.coef <= 0 then Err(NotPositive)
    else
      var rule :- RuleFor(rules, exchange, role);
      Ok(Charge(price, quantity, rule))
  }

  // ----- units

  lemma {:induction false} UnitsOfStripOnce(d: Decimal, base: int)
    requires base <= d.exp && d.coef % 10 == 0
    ensures Units(Decimal(d.coef / 10, d.exp + 1), base) == Units(d, base)
  {
    var t := Decimal(d.coef / 10, d.exp + 1);
    assert d.coef == Times(t.coef, 10);
    assert Pow10(t.exp - base) == Times(10, Pow10(d.exp - base));
    TimesAssociates(t.coef, 10, Pow10(d.exp - base));
  }

  lemma {:induction false} UnitsOfStrip(d: Decimal, ideal: int, base: int)
    requires base <= d.exp <= ideal
    ensures base <= Strip(d, ideal).exp <= ideal
    ensures Units(Strip(d, ideal), base) == Units(d, base)
    decreases ideal - d.exp
  {
    hide Units;
    if d.exp < ideal && d.coef % 10 == 0 {
      UnitsOfStripOnce(d, base);
      UnitsOfStrip(Decimal(d.coef / 10, d.exp + 1), ideal, base);
    }
  }

  // ----- no operation rounds

  lemma {:induction false} BoundedFacts(d: Decimal)
    requires Bounded(d)
    ensures var n := Digits(d.coef);
            && d.coef < Pow10(n) && 1 <= n <= 28 && -18 <= d.exp && d.exp + n <= 37
  {
    DigitsBound(d.coef);
  }

  lemma {:induction false} FitsBelow(n: nat, digits: nat)
    requires n < Pow10(digits) && digits <= PRECISION
    ensures n < Pow10(PRECISION)
  {
    Pow10Monotone(digits, PRECISION);
  }

  /** The smallest exponent that can occur in an estimate. */
  function Base(p: Decimal, q: Decimal, r: RawRule): int {
    Least(Least(p.exp + q.exp + r.feeRateBps.exp - 4, p.exp + q.exp + r.rebateRateBps.exp - 4),
          Least(r.fixedFee.exp, r.fixedRebate.exp))
  }

  function Rated(p: Decimal, q: Decimal, rate: Decimal): Decimal {
    ExactMul(ExactMul(p, q), rate)
  }

  lemma {:induction false} RatedFacts(p: Decimal, q: Decimal, rate: Decimal)
    requires Bounded(p) && Bounded(q) && Bounded(rate)
    ensures var t := Rated(p, q, rate);
            && 0 <= ExactMul(p, q).coef < Pow10(Digits(p.coef) + Digits(q.coef))
            && 0 <= t.coef < Pow10(Digits(p.coef) + Digits(q.coef) + Digits(rate.coef))
            && t.exp == p.exp + q.exp + rate.exp
  {
    hide Times, Pow10, Digits;
    DigitsBound(p.coef);
    DigitsBound(q.coef);
    DigitsBound(rate.coef);
    ProductDigits(p.coef, q.coef, Digits(p.coef), Digits(q.coef));
    ProductDigits(Times(p.coef, q.coef), rate.coef, Digits(p.coef) + Digits(q.coef), Digits(rate.coef));
  }

  /** How far each part of an estimate lies above the base: the digit budget. */
  lemma {:induction false} BaseFacts(p: Decimal, q: Decimal, r: RawRule)
    requires Bounded(p) && Bounded(q) && ValidRule(r)
    ensures var b := Base(p, q, r);
            var d := Digits(p.coef) + Digits(q.coef);
            && -58 <= b
            && b <= p.exp + q.exp + r.feeRateBps.exp - 4 && b <= p.exp + q.exp + r.rebateRateBps.exp - 4
            && b <= r.fixedFee.exp && b <= r.fixedRebate.exp
            && d + Digits(r.feeRateBps.coef) + (p.exp + q.exp + r.feeRateBps.exp - 4 - b) <= 125
            && d + Digits(r.rebateRateBps.coef) + (p.exp + q.exp + r.rebateRateBps.exp - 4 - b) <= 125
            && Bounded(r.feeRateBps) && Bounded(r.rebateRateBps) && Bounded(r.fixedFee) && Bounded(r.fixedRebate)
  {
    hide Pow10, Digits, CheckBounds;
    BoundedFacts(p);
    BoundedFacts(q);
    BoundedFacts(r.feeRateBps);
    BoundedFacts(r.rebateRateBps);
    BoundedFacts(r.fixedFee);
    BoundedFacts(r.fixedRebate);
  }

  /** A rated amount, in units of the base, has at most 125 digits. */
  lemma {:induction false} RatedUnits(p: Decimal, q: Decimal, rate: Decimal, r: RawRule)
    requires Bounded(p) && Bounded(q) && ValidRule(r) && (rate == r.feeRateBps || rate == r.rebateRateBps)
    ensures var b := Base(p, q, r);
            var x := ExactBps(Rated(p, q, rate));
            && b <= x.exp
            && 0 <= Units(x, b) < Pow10(125)
            && 0 <= x.coef < Pow10(125)
  {
    hide Times, Pow10, Digits, Strip, CheckBounds;
    var b, t := Base(p, q, r), Rated(p, q, rate);
    var raw := Decimal(t.coef, t.exp - 4);
    BaseFacts(p, q, r);
    RatedFacts(p, q, rate);
    UnitsOfStrip(raw, t.exp, b);
    ScaledBelow(t.coef, Digits(p.coef) + Digits(q.coef) + Digits(rate.coef), raw.exp - b, 125);
    CoefficientBelowUnits(ExactBps(t), b, Pow10(125));
    StripKeepsSign(raw, t.exp);
  }

  lemma {:induction false} StripKeepsSign(d: Decimal, ideal: int)
    requires d.coef >= 0
    ensures Strip(d, ideal).coef >= 0
    decreases ideal - d.exp
  {
    if d.exp < ideal && d.coef % 10 == 0 {
      StripKeepsSign(Decimal(d.coef / 10, d.exp + 1), ideal);
    }
  }

  lemma {:induction false} FixedUnits(f: Decimal, p: Decimal, q: Decimal, r: RawRule)
    requires Bounded(p) && Bounded(q) && ValidRule(r) && (f == r.fixedFee || f == r.fixedRebate)
    ensures Base(p, q, r) <= f.exp && 0 <= Units(f, Base(p, q, r)) < Pow10(125)
  {
    hide Times, Pow10, Digits, CheckBounds;
    BaseFacts(p, q, r);
    BoundedFacts(f);
    ScaledBelow(f.coef, Digits(f.coef), f.exp - Base(p, q, r), 125);
  }

  /** An amount: a rated part plus a fixed part. */
  function Amount(p: Decimal, q: Decimal, rate: Decimal, fixed: Decimal): Decimal {
    ExactAdd(ExactBps(Rated(p, q, rate)), fixed)
  }

  lemma {:induction false} AmountUnits(p: Decimal, q: Decimal, rate: Decimal, fixed: Decimal, r: RawRule)
    requires Bounded(p) && Bounded(q) && ValidRule(r)
    requires (rate == r.feeRateBps && fixed == r.fixedFee) || (rate == r.rebateRateBps && fixed == r.fixedRebate)
    ensures var a := Amount(p, q, rate, fixed);
            && Base(p, q, r) <= a.exp
            && 0 <= Units(a, Base(p, q, r)) < 2 * Pow10(125)
            && Fits(a)
  {
    hide Units, Pow10, Times, ExactBps, CheckBounds, ExactMul, Base;
    var x, b := ExactBps(Rated(p, q, rate)), Base(p, q, r);
    RatedUnits(p, q, rate, r);
    FixedUnits(fixed, p, q, r);
    UnitsOfSum(x, fixed, b);
    CoefficientBelowUnits(ExactAdd(x, fixed), b, 2 * Pow10(125));
    TwiceFits();
  }

  lemma {:induction false} TwiceFits()
    ensures 2 * Pow10(125) <= Pow10(126) <= Pow10(PRECISION) && Pow10(125) <= Pow10(PRECISION)
  {
    Pow10Monotone(126, PRECISION);
    Pow10Monotone(125, PRECISION);
  }

  lemma {:induction false} NetFits(p: Decimal, q: Decimal, r: RawRule)
    requires Bounded(p) && Bounded(q) && ValidRule(r)
    ensures Fits(ExactAdd(Amount(p, q, r.feeRateBps, r.fixedFee), Negate(Amount(p, q, r.rebateRateBps, r.fixedRebate))))
  {
    hide Amount, Units, Pow10, ExactAdd, CheckBounds, ValidRule, Base;
    AmountUnits(p, q, r.feeRateBps, r.fixedFee, r);
    AmountUnits(p, q, r.rebateRateBps, r.fixedRebate, r);
    DifferenceBelow(Amount(p, q, r.feeRateBps, r.fixedFee), Amount(p, q, r.rebateRateBps, r.fixedRebate), Base(p, q, r), 2 * Pow10(125));
    TwiceFits();
  }

  /** The estimate with exact arithmetic throughout. */
  function ExactCharge(price: Decimal, quantity: Decimal, r: RawRule): FeeEstimate {
    var fee := Amount(price, quantity, r.feeRateBps, r.fixedFee);
    var rebate := Amount(price, quantity, r.rebateRateBps, r.fixedRebate);
    FeeEstimate(r.exchange, r.role, r.currency, ExactMul(price, quantity), fee, rebate, ExactAdd(fee, Negate(rebate)))
  }

  lemma {:induction false} RatedFits(p: Decimal, q: Decimal, rate: Decimal, r: RawRule)
    requires Bounded(p) && Bounded(q) && ValidRule(r) && (rate == r.feeRateBps || rate == r.rebateRateBps)
    ensures Fits(ExactMul(p, q)) && Fits(Rated(p, q, rate)) && Fits(ExactBps(Rated(p, q, rate)))
  {
    hide Times, Pow10, Digits, CheckBounds, ExactBps, Units;
    assert Bounded(rate) by { BaseFacts(p, q, r); }
    BoundedFacts(p);
    BoundedFacts(q);
    BoundedFacts(rate);
    RatedFacts(p, q, rate);
    FitsBelow(ExactMul(p, q).coef, Digits(p.coef) + Digits(q.coef));
    FitsBelow(Rated(p, q, rate).coef, Digits(p.coef) + Digits(q.coef) + Digits(rate.coef));
    RatedUnits(p, q, rate, r);
    TwiceFits();
  }

  lemma FixKeeps(d: Decimal)
    requires Fits(d)
    ensures Fix(d) == d
  {
  }

  /** For all inputs within the bounds, every intermediate and final value fits the context: nothing is ever rounded. */
  lemma {:induction false} NothingIsRounded(price: Decimal, quantity: Decimal, r: RawRule)
    requires Bounded(price) && Bounded(quantity) && ValidRule(r)
    ensures Charge(price, quantity, r) == ExactCharge(price, quantity, r)
  {
    hide Fits, Fix, ExactMul, ExactBps, ExactAdd, Units, CheckBounds, ValidRule;
    RatedFits(price, quantity, r.feeRateBps, r);
    RatedFits(price, quantity, r.rebateRateBps, r);
    AmountUnits(price, quantity, r.feeRateBps, r.fixedFee, r);
    AmountUnits(price, quantity, r.rebateRateBps, r.fixedRebate, r);
    NetFits(price, quantity, r);
    var charge := ExactCharge(price, quantity, r);
    var fee, rebate := Rated(price, quantity, r.feeRateBps), Rated(price, quantity, r.rebateRateBps);
    FixKeeps(charge.notional);
    FixKeeps(fee);
    FixKeeps(ExactBps(fee));
    FixKeeps(charge.fee);
    FixKeeps(rebate);
    FixKeeps(ExactBps(rebate));
    FixKeeps(charge.rebate);
    FixKeeps(charge.net);
  }

  // ----- the values

  lemma {:induction false} RealOfBps(x: Decimal)
    ensures Real(ExactBps(x)) == Real(x) / 10000.0
  {
    hide Units, Strip;
    var base := x.exp - 4;
    var raw := Decimal(x.coef, base);
    UnitsOfStrip(raw, x.exp, base);
    RealInUnits(ExactBps(x), base);
    RealInUnits(raw, base);
    TenStep(base);
    TenStep(base + 1);
    TenStep(base + 2);
    TenStep(base + 3);
    FourPlaces(x.coef as real, Ten(base));
  }

  lemma FourPlaces(c: real, t: real)
    ensures Value(c, t) == Value(c, 10.0 * (10.0 * (10.0 * (10.0 * t)))) / 10000.0
  {
  }

  lemma {:induction false} RealOfAmount(p: Decimal, q: Decimal, rate: Decimal, fixed: Decimal)
    ensures Real(Amount(p, q, rate, fixed)) == Value(Value(Real(p), Real(q)), Real(rate)) / 10000.0 + Real(fixed)
  {
    hide Real, Value, ExactAdd, ExactBps, ExactMul;
    RealOfProduct(p, q);
    RealOfProduct(ExactMul(p, q), rate);
    RealOfBps(Rated(p, q, rate));
    RealOfSum(ExactBps(Rated(p, q, rate)), fixed);
  }

  /**
   Within the declared bounds the estimate is the schoolbook formula, exactly: notional is price times quantity, fee and
   rebate are basis points of it plus their fixed parts, and net is their difference.
   */
  lemma {:induction false} EstimateIsExact(price: Decimal, quantity: Decimal, r: RawRule)
    requires Bounded(price) && Bounded(quantity) && ValidRule(r)
    ensures var e := Charge(price, quantity, r);
            var notional := Real(price) * Real(quantity);
            && Real(e.notional) == notional
            && Real(e.fee) == notional * Real(r.feeRateBps) / 10000.0 + Real(r.fixedFee)
            && Real(e.rebate) == notional * Real(r.rebateRateBps) / 10000.0 + Real(r.fixedRebate)
            && Real(e.net) == Real(e.fee) - Real(e.rebate)
  {
    hide Real, Charge, Amount, ExactAdd, ExactMul, Bounded, ValidRule;
    NothingIsRounded(price, quantity, r);
    RealOfProduct(price, quantity);
    RealOfAmount(price, quantity, r.feeRateBps, r.fixedFee);
    RealOfAmount(price, quantity, r.rebateRateBps, r.fixedRebate);
    var e := ExactCharge(price, quantity, r);
    RealOfSum(e.fee, Negate(e.rebate));
    RealOfNegation(e.rebate);
  }

  lemma {:induction false} RuleForFinds(rules: seq<RawRule>, exchange: string, role: Role)
    ensures var r := RuleFor(rules, exchange, role);
            && (r.Ok? ==> r.value in rules && r.value.exchange == exchange && r.value.role == role)
            && (r.Err? <==> forall i :: 0 <= i < |rules| ==> !(rules[i].exchange == exchange && rules[i].role == role))
  {
    if rules != [] {
      RuleForFinds(rules[1..], exchange, role);
      assert forall i :: 1 <= i < |rules| ==> rules[i] == rules[1..][i - 1];
      assert forall i :: 0 <= i < |rules| - 1 ==> rules[1..][i] == rules[i + 1];
    }
  }

  /** A table in which every pair of exchange and role has one rule charges exactly by that rule, for every accepted input. */
  lemma {:induction false} TableChargesExactly(rules: seq<RawRule>, exchange: string, price: Decimal, quantity: Decimal, role: Role, i: nat)
    requires DistinctRules(rules) && (forall k :: 0 <= k < |rules| ==> ValidRule(rules[k]))
    requires i < |rules| && rules[i].exchange == exchange && rules[i].role == role
    requires Bounded(price) && Bounded(quantity) && quantity.coef > 0
    ensures var e := Estimate(rules, exchange, price, quantity, role);
            var notional := Real(price) * Real(quantity);
            && e.Ok?
            && e.value.currency == rules[i].currency && e.value.exchange == exchange && e.value.role == role
            && Real(e.value.notional) == notional
            && Real(e.value.fee) == notional * Real(rules[i].feeRateBps) / 10000.0 + Real(rules[i].fixedFee)
            && Real(e.value.rebate) == notional * Real(rules[i].rebateRateBps) / 10000.0 + Real(rules[i].fixedRebate)
            && Real(e.value.net) == Real(e.value.fee) - Real(e.value.rebate)
  {
    hide Real, Mul, Add, Sub, Bps, CheckBounds;
    RuleForFinds(rules, exchange, role);
    var rule := RuleFor(rules, exchange, role).value;
    var k :| 0 <= k < |rules| && rules[k] == rule;
    assert k == i;
    EstimateIsExact(price, quantity, rules[i]);
  }

  // ----- acceptance

  /** The bounds as plain inequalities: 28 digits, 18 places, and a value below ten to the 37. */
  lemma {:induction false} BoundsIff(d: Decimal)
    ensures CheckBounds(d).Ok? <==>
              Magnitude(d.coef) < Pow10(28) && -18 <= d.exp <= 36 && Magnitude(d.coef) < Pow10(37 - d.exp)
  {
    hide Pow10, Digits;
    DigitsAtMostIff(Magnitude(d.coef), 28);
    if -18 <= d.exp <= 36 {
      DigitsAtMostIff(Magnitude(d.coef), 37 - d.exp);
    }
  }

  /**
   An estimate is given if and only if the exchange is named, price and quantity are bounded and have the right signs, and
   the table has a rule for the exchange and the role.
   */
  lemma {:induction false} EstimateAcceptedIff(rules: seq<RawRule>, exchange: string, price: Decimal, quantity: Decimal, role: Role)
    ensures Estimate(rules, exchange, price, quantity, role).Ok? <==>
              && exchange != "" && exchange[0] !in {' ', '\t', '\n', '\r'} && exchange[|exchange| - 1] !in {' ', '\t', '\n', '\r'}
              && CheckBounds(price).Ok? && CheckBounds(quantity).Ok?
              && price.coef >= 0 && quantity.coef > 0
              && exists i :: 0 <= i < |rules| && rules[i].exchange == exchange && rules[i].role == role
  {
    hide CheckBounds, Charge;
    RuleForFinds(rules, exchange, role);
  }
}
