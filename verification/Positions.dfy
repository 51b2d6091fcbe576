/** Weighted-average-cost position projection of one fill. */
module Positions {
  import opened Common
  import opened Portfolio
  import opened Reals

  datatype Average = Average(
    quantity: real, averageEntryPrice: Option<real>, realizedTradingPnl: real,
    closedQuantity: real, openedQuantity: real,
    closedCostBasis: real, closedTradeValue: real, openedNotional: real)

  datatype Projection = Projection(
    position: Position, realizedTradingPnl: Money, fee: Money, rebate: Money, tradeNotional: Money,
    closedQuantity: real, openedQuantity: real,
    closedCostBasis: Money, closedTradeValue: Money, openedNotional: Money)

  function Abs(x: real): real {
    if x < 0.0 then -x else x
  }

  function Sign(x: real): real
    requires x != 0.0
  {
    if x > 0.0 then 1.0 else -1.0
  }

  /** `x` times the sign of `q`. */
  function TimesSign(q: real, x: real): real
    requires q != 0.0
  {
    if q > 0.0 then x else -x
  }

  /** `x` times the direction of the side: plus one for a buy, minus one for a sell. */
  function Signed(side: Side, x: real): real {
    if side.Buy? then x else -x
  }

  function SignedQuantity(fill: Fill): real {
    Signed(fill.side, fill.quantity)
  }

  /** Price `a` weighted by `m` and price `b` weighted by `n`. */
  function Mean(m: real, a: real, n: real, b: real, total: real): real
    requires total != 0.0
  {
    (Value(m, a) + Value(n, b)) / total
  }

  function ApplyWeightedAverageFill(q: real, average: Option<real>, fill: Fill): Result<Average, Error> {
    var f := SignedQuantity(fill);
    var projected := q + f;
    if q == 0.0 then
      Ok(Average(projected, Some(fill.price), 0.0, 0.0, Abs(f), 0.0, 0.0, Value(Abs(f), fill.price)))
    else if average.None? then
      Err(OpenWithoutAverage)
    else if Sign(q) == Sign(f) then
      var projectedAverage := Mean(Abs(q), average.value, Abs(f), fill.price, Abs(projected));
      Ok(Average(projected, Some(projectedAverage), 0.0, 0.0, Abs(f), 0.0, 0.0, Value(Abs(f), fill.price)))
    else
      var closed := if Abs(q) <= Abs(f) then Abs(q) else Abs(f);
      var realized := TimesSign(q, Value(closed, fill.price - average.value));
      var surplus := if Abs(f) - Abs(q) >= 0.0 then Abs(f) - Abs(q) else 0.0;
      var projectedAverage :=
        if projected == 0.0 then None
        else if Sign(q) == Sign(projected) then average
        else Some(fill.price);
      Ok(Average(projected, projectedAverage, realized, closed, surplus,
                 Value(closed, average.value), Value(closed, fill.price), Value(surplus, fill.price)))
  }

  /** `_fill_money`: a missing amount is zero; a present one must be in the currency and nonnegative. */
  function FillMoney(money: Option<Money>, currency: string): Result<Money, Error> {
    match money
    case None => Ok(Money(0.0, currency))
    case Some(m) =>
      if m.currency != currency then Err(CurrencyMismatch)
      else if m.amount < 0.0 then Err(NegativeAmount)
      else Ok(m)
  }

  function CheckExistingPosition(p: Position, fill: Fill, currency: string, positionId: Option<PositionId>): Result<(), Error> {
    if positionId.Some? && p.positionId != positionId.value then Err(PositionIdMismatch)
    else if p.identity != fill.identity then Err(IdentityMismatch)
    else if p.quantity == 0.0 && p.averageEntryPrice.Some? then Err(FlatWithAverage)
    else if p.quantity != 0.0 && p.averageEntryPrice.None? then Err(OpenWithoutAverage)
    else if !InCurrency(p, currency) then Err(CurrencyMismatch)
    else if fill.exchangeOccurredAt < p.lastUpdatedAt then Err(StaleEvent)
    else Ok(())
  }

  function ProjectOpenedAt(q: real, projected: real, openedAt: Option<Time>, fill: Fill): Option<Time> {
    if projected == 0.0 then None
    else if q == 0.0 || openedAt.None? then Some(fill.exchangeOccurredAt)
    else if Sign(q) == Sign(projected) then
      Some(if openedAt.value <= fill.exchangeOccurredAt then openedAt.value else fill.exchangeOccurredAt)
    else Some(fill.exchangeOccurredAt)
  }

  /** What the projection starts from when there is no position yet. */
  function Blank(fill: Fill, currency: string, positionId: Option<PositionId>): RawPosition {
    var zero := Money(0.0, currency);
    RawPosition.Position(
      if positionId.Some? then positionId.value else DerivedPosition(fill.identity),
      fill.identity, 0.0, None, zero, zero, zero, zero, None, fill.exchangeOccurredAt, 0)
  }

  function ApplyFillToPosition(position: Option<Position>, fill: Fill, currency: string, positionId: Option<PositionId>)
    : Result<Projection, Error>
  {
    if !ValidCurrency(currency) then Err(InvalidCurrency) else
    var fee :- FillMoney(fill.fee, currency);
    var rebate :- FillMoney(fill.rebate, currency);
    var _ :- if position.Some? then CheckExistingPosition(position.value, fill, currency, positionId) else Ok(());
    var start := if position.Some? then position.value else Blank(fill, currency, positionId);
    var a :- ApplyWeightedAverageFill(start.quantity, start.averageEntryPrice, fill);
    BuildProjection(start, fill, currency, fee, rebate, a)
  }

  /** The projected position and the amounts that the journal needs. */
  function BuildProjection(start: RawPosition, fill: Fill, currency: string, fee: Money, rebate: Money, a: Average)
    : Result<Projection, Error>
  {
    var projected :- MakePosition(RawPosition.Position(
      start.positionId, fill.identity, a.quantity, a.averageEntryPrice,
      Money(start.realizedPnl.amount + a.realizedTradingPnl, currency),
      Money(0.0, currency),
      Money(start.feesPaid.amount + fee.amount, currency),
      Money(start.rebatesReceived.amount + rebate.amount, currency),
      ProjectOpenedAt(start.quantity, a.quantity, start.openedAt, fill),
      if start.lastUpdatedAt >= fill.exchangeOccurredAt then start.lastUpdatedAt else fill.exchangeOccurredAt,
      start.aggregateVersion + 1));
    Ok(Projection(projected, Money(a.realizedTradingPnl, currency), fee, rebate,
                  Money(Value(fill.quantity, fill.price), currency),
                  a.closedQuantity, a.openedQuantity,
                  Money(a.closedCostBasis, currency), Money(a.closedTradeValue, currency),
                  Money(a.openedNotional, currency)))
  }

  // ----- the cost a position carries

  function CostOf(quantity: real, average: Option<real>): real {
    if average.Some? then Value(quantity, average.value) else 0.0
  }

  function Cost(position: Option<Position>): real {
    if position.Some? then CostOf(position.value.quantity, position.value.averageEntryPrice) else 0.0
  }

  /** An average price is present exactly when the quantity is nonzero. */
  predicate AveragedIffOpen(quantity: real, average: Option<real>) {
    quantity == 0.0 <==> average.None?
  }

  function Quantity(position: Option<Position>): real {
    if position.Some? then position.value.quantity else 0.0
  }

  function Realized(position: Option<Position>): real {
    if position.Some? then position.value.realizedPnl.amount else 0.0
  }

  function Fees(position: Option<Position>): real {
    if position.Some? then position.value.feesPaid.amount else 0.0
  }

  function Rebates(position: Option<Position>): real {
    if position.Some? then position.value.rebatesReceived.amount else 0.0
  }

  function Version(position: Option<Position>): int {
    if position.Some? then position.value.aggregateVersion else 0
  }

  predicate Sound(position: Option<Position>) {
    position.Some? ==> AveragedIffOpen(position.value.quantity, position.value.averageEntryPrice)
  }

  // ----- arithmetic of one fill

  /** A weighted mean lies in every interval that holds both prices. */
  lemma MeanBetween(m: real, a: real, n: real, b: real, total: real, lo: real, hi: real)
    requires m > 0.0 && n > 0.0 && total == m + n
    requires lo <= a <= hi && lo <= b <= hi
    ensures lo <= Mean(m, a, n, b, total) <= hi
  {
    hide Value;
    ValueMonotone(m, lo, a);
    ValueMonotone(n, lo, b);
    ValueMonotone(m, a, hi);
    ValueMonotone(n, b, hi);
    ValueAdd(m, n, lo);
    ValueAdd(m, n, hi);
    QuotientBounds(Value(m, a) + Value(n, b), total, lo, hi);
  }

  lemma AddKeepsCost(q: real, average: real, fill: Fill)
    requires q != 0.0 && Sign(q) == Sign(SignedQuantity(fill))
    ensures var f := SignedQuantity(fill);
            Value(q + f, Mean(Abs(q), average, Abs(f), fill.price, Abs(q + f))) == Value(q, average) + Value(f, fill.price)
  {
    hide Value;
    var f := SignedQuantity(fill);
    var mean := Mean(Abs(q), average, Abs(f), fill.price, Abs(q + f));
    ValueOfQuotient(Value(Abs(q), average) + Value(Abs(f), fill.price), Abs(q + f));
    ValueNegate(q, average);
    ValueNegate(f, fill.price);
    ValueNegate(q + f, mean);
  }

  /** What a fill takes off an open quantity of the other sign: no more than either. */
  function Offset(q: real, fill: Fill): real {
    if q > 0.0 && fill.side.Sell? then (if q <= fill.quantity then q else fill.quantity)
    else if q < 0.0 && fill.side.Buy? then (if -q <= fill.quantity then -q else fill.quantity)
    else 0.0
  }

  /**
   What a fill does to cost, realized PnL and quantity: an independent account of the three branches.
   Cost moves by the opened notional plus the closed basis, both in the fill's direction.
   */
  ghost predicate Accounts(q: real, average: Option<real>, fill: Fill, a: Average) {
    && a.quantity == q + SignedQuantity(fill)
    && AveragedIffOpen(a.quantity, a.averageEntryPrice)
    && a.closedQuantity >= 0.0 && a.openedQuantity >= 0.0
    && a.closedQuantity + a.openedQuantity == fill.quantity
    && a.closedTradeValue == Value(a.closedQuantity, fill.price)
    && a.openedNotional == Value(a.openedQuantity, fill.price)
    && a.closedQuantity == Offset(q, fill)
    && a.closedCostBasis == (if average.Some? then Value(a.closedQuantity, average.value) else 0.0)
    && (a.closedQuantity == 0.0 ==> a.closedCostBasis == 0.0)
    && a.realizedTradingPnl == -Signed(fill.side, a.closedTradeValue - a.closedCostBasis)
    && CostOf(a.quantity, a.averageEntryPrice) - CostOf(q, average) == Signed(fill.side, a.openedNotional + a.closedCostBasis)
  }

  lemma AddAccounts(q: real, average: real, fill: Fill)
    requires q != 0.0 && Sign(q) == Sign(SignedQuantity(fill))
    ensures Accounts(q, Some(average), fill, ApplyWeightedAverageFill(q, Some(average), fill).value)
  {
    hide Value;
    ValueZero(fill.price);
    ValueZero(average);
    AddKeepsCost(q, average, fill);
    ValueNegate(fill.quantity, fill.price);
  }

  lemma ReducePartlyAccounts(q: real, average: real, fill: Fill)
    requires q != 0.0 && Sign(q) != Sign(SignedQuantity(fill)) && fill.quantity < Abs(q)
    ensures Accounts(q, Some(average), fill, ApplyWeightedAverageFill(q, Some(average), fill).value)
  {
    hide Value;
    ValueSubtractPrice(fill.quantity, fill.price, average);
    ValueAdd(q, SignedQuantity(fill), average);
    ValueNegate(fill.quantity, average);
    ValueZero(fill.price);
  }

  lemma FlipAccounts(q: real, average: real, fill: Fill)
    requires q != 0.0 && Sign(q) != Sign(SignedQuantity(fill)) && Abs(q) <= fill.quantity
    ensures Accounts(q, Some(average), fill, ApplyWeightedAverageFill(q, Some(average), fill).value)
  {
    hide Value;
    var surplus := fill.quantity - Abs(q);
    ValueSubtractPrice(Abs(q), fill.price, average);
    ValueNegate(Abs(q), average);
    ValueNegate(surplus, fill.price);
    ValueZero(fill.price);
    assert q == -Signed(fill.side, Abs(q));
    assert q + SignedQuantity(fill) == Signed(fill.side, surplus);
  }

  lemma ReduceAccounts(q: real, average: real, fill: Fill)
    requires q != 0.0 && Sign(q) != Sign(SignedQuantity(fill))
    ensures Accounts(q, Some(average), fill, ApplyWeightedAverageFill(q, Some(average), fill).value)
  {
    hide Accounts, ApplyWeightedAverageFill;
    if fill.quantity < Abs(q) {
      ReducePartlyAccounts(q, average, fill);
    } else {
      FlipAccounts(q, average, fill);
    }
  }

  /** Every fill of a sound position is accounted for, whichever branch it takes. */
  lemma FillAccounts(q: real, average: Option<real>, fill: Fill)
    requires AveragedIffOpen(q, average)
    ensures ApplyWeightedAverageFill(q, average, fill).Ok?
    ensures Accounts(q, average, fill, ApplyWeightedAverageFill(q, average, fill).value)
  {
    hide Value;
    if q == 0.0 {
      ValueNegate(fill.quantity, fill.price);
      ValueZero(fill.price);
    } else if Sign(q) == Sign(SignedQuantity(fill)) {
      AddAccounts(q, average.value, fill);
    } else {
      ReduceAccounts(q, average.value, fill);
    }
  }

  lemma AverageNonnegative(q: real, average: Option<real>, fill: Fill)
    requires AveragedIffOpen(q, average)
    requires average.Some? ==> average.value >= 0.0
    ensures var a := ApplyWeightedAverageFill(q, average, fill);
            && a.Ok?
            && (a.value.averageEntryPrice.Some? ==> a.value.averageEntryPrice.value >= 0.0)
            && a.value.closedCostBasis >= 0.0
  {
    hide Value, Mean;
    var f := SignedQuantity(fill);
    if q != 0.0 && Sign(q) == Sign(f) {
      var hi := if average.value <= fill.price then fill.price else average.value;
      MeanBetween(Abs(q), average.value, Abs(f), fill.price, Abs(q + f), 0.0, hi);
    } else if q != 0.0 {
      ValueNonnegative(Abs(q), average.value);
      ValueNonnegative(Abs(f), average.value);
    }
  }

  // ----- one fill at the position level

  /** What the source demands of a fill before it projects it. */
  ghost predicate Accepts(position: Option<Position>, fill: Fill, currency: string, positionId: Option<PositionId>) {
    && |currency| == 3 && (forall i :: 0 <= i < 3 ==> 'A' <= currency[i] <= 'Z')
    && (fill.fee.Some? ==> fill.fee.value.currency == currency && fill.fee.value.amount >= 0.0)
    && (fill.rebate.Some? ==> fill.rebate.value.currency == currency && fill.rebate.value.amount >= 0.0)
    && (position.Some? ==>
          var p := position.value;
          && (positionId.Some? ==> p.positionId == positionId.value)
          && p.identity == fill.identity
          && (p.quantity == 0.0 <==> p.averageEntryPrice.None?)
          && currency == p.realizedPnl.currency == p.unrealizedPnl.currency == p.feesPaid.currency == p.rebatesReceived.currency
          && p.lastUpdatedAt <= fill.exchangeOccurredAt)
  }

  /** The effect of an accepted fill on the projected position. */
  ghost predicate Projects(position: Option<Position>, fill: Fill, currency: string, positionId: Option<PositionId>, p: Projection) {
    var after := p.position;
    && after.identity == fill.identity
    && InCurrency(after, currency)
    && Sound(Some(after))
    && after.quantity == Quantity(position) + SignedQuantity(fill)
    && after.realizedPnl.amount == Realized(position) + p.realizedTradingPnl.amount
    && after.feesPaid.amount == Fees(position) + p.fee.amount
    && after.rebatesReceived.amount == Rebates(position) + p.rebate.amount
    && after.aggregateVersion == Version(position) + 1
    && after.lastUpdatedAt == fill.exchangeOccurredAt
    && Cost(Some(after)) - Cost(position) == Signed(fill.side, p.openedNotional.amount + p.closedCostBasis.amount)
    && p.realizedTradingPnl.amount == -Signed(fill.side, p.closedTradeValue.amount - p.closedCostBasis.amount)
    && p.closedTradeValue.amount == Value(p.closedQuantity, fill.price)
    && p.openedNotional.amount == Value(p.openedQuantity, fill.price)
    && p.closedQuantity >= 0.0 && p.openedQuantity >= 0.0
    && p.closedQuantity + p.openedQuantity == fill.quantity
    && (p.closedQuantity == 0.0 ==> p.closedCostBasis.amount == 0.0 && p.realizedTradingPnl.amount == 0.0)
    && p.tradeNotional == Money(Value(fill.quantity, fill.price), currency)
    && p.closedCostBasis.amount >= 0.0
    && p.fee == (if fill.fee.Some? then fill.fee.value else Money(0.0, currency))
    && p.rebate == (if fill.rebate.Some? then fill.rebate.value else Money(0.0, currency))
    && p.fee.currency == currency && p.fee.amount >= 0.0 && p.rebate.currency == currency && p.rebate.amount >= 0.0
    && after.positionId == (if position.Some? then position.value.positionId
                            else if positionId.Some? then positionId.value else DerivedPosition(fill.identity))
    && after.unrealizedPnl.amount == 0.0
    && p.closedQuantity == Offset(Quantity(position), fill)
    && p.closedCostBasis.amount ==
         (if position.Some? && position.value.averageEntryPrice.Some?
          then Value(p.closedQuantity, position.value.averageEntryPrice.value) else 0.0)
    && currency == p.realizedTradingPnl.currency == p.closedCostBasis.currency
                == p.closedTradeValue.currency == p.openedNotional.currency
  }

  lemma BuildProjects(position: Option<Position>, start: RawPosition, fill: Fill, currency: string,
                      positionId: Option<PositionId>, fee: Money, rebate: Money, a: Average)
    requires Sound(position) && ValidPosition(start)
    requires position.Some? ==> start == position.value
    requires position.None? ==>
               && start.quantity == 0.0 && start.averageEntryPrice.None? && start.aggregateVersion == 0
               && start.realizedPnl.amount == start.feesPaid.amount == start.rebatesReceived.amount == 0.0
               && start.positionId == (if positionId.Some? then positionId.value else DerivedPosition(fill.identity))
    requires start.lastUpdatedAt <= fill.exchangeOccurredAt
    requires FillMoney(fill.fee, currency) == Ok(fee) && FillMoney(fill.rebate, currency) == Ok(rebate)
    requires Accounts(start.quantity, start.averageEntryPrice, fill, a)
    requires a.averageEntryPrice.Some? ==> a.averageEntryPrice.value >= 0.0
    requires a.closedCostBasis >= 0.0
    ensures var r := BuildProjection(start, fill, currency, fee, rebate, a);
            r.Ok? && Projects(position, fill, currency, positionId, r.value)
  {
    hide Value;
    ValueZero(fill.price);
  }

  /** A fill is projected exactly when it is accepted: the `Position` validators never reject. */
  lemma FillProjects(position: Option<Position>, fill: Fill, currency: string, positionId: Option<PositionId>)
    ensures var r := ApplyFillToPosition(position, fill, currency, positionId);
            && (r.Ok? <==> Accepts(position, fill, currency, positionId))
            && (r.Ok? ==> Projects(position, fill, currency, positionId, r.value))
  {
    if Accepts(position, fill, currency, positionId) {
      var start := if position.Some? then position.value else Blank(fill, currency, positionId);
      FillAccounts(start.quantity, start.averageEntryPrice, fill);
      AverageNonnegative(start.quantity, start.averageEntryPrice, fill);
      var a := ApplyWeightedAverageFill(start.quantity, start.averageEntryPrice, fill).value;
      BuildProjects(position, start, fill, currency, positionId, FillMoney(fill.fee, currency).value, FillMoney(fill.rebate, currency).value, a);
    }
  }

  lemma NotionalSplits(fill: Fill, closed: real, surplus: real)
    requires closed + surplus == fill.quantity
    ensures Value(fill.quantity, fill.price) == Value(closed, fill.price) + Value(surplus, fill.price)
  {
    ValueAdd(closed, surplus, fill.price);
  }

  /** Realized PnL minus carried cost moves by the signed notional alone. */
  lemma TradeIdentity(position: Option<Position>, fill: Fill, currency: string, positionId: Option<PositionId>, p: Projection)
    requires Projects(position, fill, currency, positionId, p)
    ensures (Realized(Some(p.position)) - Cost(Some(p.position))) - (Realized(position) - Cost(position))
         == -Signed(fill.side, Value(fill.quantity, fill.price))
  {
    hide Value;
    NotionalSplits(fill, p.closedQuantity, p.openedQuantity);
  }

  /** The part of a projected fill that whole runs accumulate. */
  lemma FillSteps(position: Option<Position>, fill: Fill, currency: string, positionId: Option<PositionId>)
    requires ApplyFillToPosition(position, fill, currency, positionId).Ok?
    ensures var after := Some(ApplyFillToPosition(position, fill, currency, positionId).value.position);
            && Sound(after)
            && Quantity(after) == Quantity(position) + SignedQuantity(fill)
            && Version(after) == Version(position) + 1
            && (Realized(after) - Cost(after)) - (Realized(position) - Cost(position))
               == -Signed(fill.side, Value(fill.quantity, fill.price))
  {
    FillProjects(position, fill, currency, positionId);
    TradeIdentity(position, fill, currency, positionId, ApplyFillToPosition(position, fill, currency, positionId).value);
  }
}
