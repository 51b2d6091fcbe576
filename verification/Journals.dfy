/** The double-entry journal of one fill. */
module Journals {
  import opened Common
  import opened Portfolio
  import opened Positions
  import opened Reals

  function MoneyOrZero(money: Option<Money>, currency: string): Money {
    if money.Some? then money.value else Money(0.0, currency)
  }

  /** `_validate_projection_for_fill`: everything the journal trusts about the projection. */
  function CheckProjection(fill: Fill, p: Projection): Result<(), Error> {
    var currency := p.tradeNotional.currency;
    if p.position.identity != fill.identity then Err(IdentityMismatch)
    else if !(currency == p.realizedTradingPnl.currency == p.fee.currency == p.rebate.currency
                       == p.closedCostBasis.currency == p.closedTradeValue.currency == p.openedNotional.currency) then
      Err(CurrencyMismatch)
    else if p.tradeNotional.amount < 0.0 || p.fee.amount < 0.0 || p.rebate.amount < 0.0
            || p.closedCostBasis.amount < 0.0 || p.closedTradeValue.amount < 0.0 || p.openedNotional.amount < 0.0 then
      Err(NegativeAmount)
    else if p.tradeNotional.amount != Value(fill.quantity, fill.price)
            || p.fee != MoneyOrZero(fill.fee, currency)
            || p.rebate != MoneyOrZero(fill.rebate, currency)
            || p.closedQuantity < 0.0 || p.openedQuantity < 0.0
            || p.closedQuantity + p.openedQuantity != fill.quantity
            || p.closedTradeValue.amount != Value(p.closedQuantity, fill.price)
            || p.openedNotional.amount != Value(p.openedQuantity, fill.price)
            || p.realizedTradingPnl.amount != -Signed(fill.side, p.closedTradeValue.amount - p.closedCostBasis.amount) then
      Err(ProjectionMismatch)
    else Ok(())
  }

  function ClosedLines(side: Side, p: Projection, currency: string): seq<JournalLine> {
    if p.closedQuantity > 0.0 then
      [Line(PositionCost, Signed(side, p.closedCostBasis.amount), currency),
       Line(RealizedTradingPnl, -p.realizedTradingPnl.amount, currency)]
    else []
  }

  function OpenedLines(side: Side, p: Projection, currency: string): seq<JournalLine> {
    if p.openedQuantity > 0.0 then [Line(PositionCost, Signed(side, p.openedNotional.amount), currency)] else []
  }

  function FeeLines(p: Projection, currency: string): seq<JournalLine> {
    if p.fee.amount > 0.0 then
      [Line(Cash, -p.fee.amount, currency), Line(FeesPaid, p.fee.amount, currency)]
    else []
  }

  function RebateLines(p: Projection, currency: string): seq<JournalLine> {
    if p.rebate.amount > 0.0 then
      [Line(Cash, p.rebate.amount, currency), Line(RebatesReceived, -p.rebate.amount, currency)]
    else []
  }

  function FillLines(fill: Fill, p: Projection): seq<JournalLine> {
    var currency := p.tradeNotional.currency;
    var side := fill.side;
    [Line(Cash, -Signed(side, p.tradeNotional.amount), currency)]
      + ClosedLines(side, p, currency) + OpenedLines(side, p, currency) + FeeLines(p, currency) + RebateLines(p, currency)
  }

  function FillJournalEntry(fill: Fill, p: Projection, sourceEventId: string, createdAt: Time): Result<Journal, Error> {
    var _ :- CheckProjection(fill, p);
    MakeJournal(RawJournal.Journal(FillJournal(fill.fillId), fill.exchangeOccurredAt, sourceEventId,
                                   FillLines(fill, p), createdAt))
  }

  /** `build_fill_journal_entry`: the lines are appended one group at a time. */
  method BuildFillJournalEntry(fill: Fill, p: Projection, sourceEventId: string, createdAt: Time)
    returns (r: Result<Journal, Error>)
    ensures r == FillJournalEntry(fill, p, sourceEventId, createdAt)
  {
    var checked := CheckProjection(fill, p);
    if checked.Err? {
      return Err(checked.error);
    }
    var currency := p.tradeNotional.currency;
    var side := fill.side;
    var lines := [Line(Cash, -Signed(side, p.tradeNotional.amount), currency)];
    if p.closedQuantity > 0.0 {
      lines := lines + [Line(PositionCost, Signed(side, p.closedCostBasis.amount), currency)];
      lines := lines + [Line(RealizedTradingPnl, -p.realizedTradingPnl.amount, currency)];
    }
    if p.openedQuantity > 0.0 {
      lines := lines + [Line(PositionCost, Signed(side, p.openedNotional.amount), currency)];
    }
    if p.fee.amount > 0.0 {
      lines := lines + [Line(Cash, -p.fee.amount, currency), Line(FeesPaid, p.fee.amount, currency)];
    }
    if p.rebate.amount > 0.0 {
      lines := lines + [Line(Cash, p.rebate.amount, currency), Line(RebatesReceived, -p.rebate.amount, currency)];
    }
    assert lines == FillLines(fill, p);
    r := MakeJournal(RawJournal.Journal(FillJournal(fill.fillId), fill.exchangeOccurredAt, sourceEventId, lines, createdAt));
  }

  // ----- what the lines add up to

  /** The amount a fill's journal books to each account; all of them together for `None`. */
  function Booked(fill: Fill, p: Projection, account: Option<AccountCode>): real {
    var side := fill.side;
    match account
    case Some(Cash) => -Signed(side, p.tradeNotional.amount) - p.fee.amount + p.rebate.amount
    case Some(PositionCost) => Signed(side, p.openedNotional.amount) + Signed(side, p.closedCostBasis.amount)
    case Some(RealizedTradingPnl) => -p.realizedTradingPnl.amount
    case Some(FeesPaid) => p.fee.amount
    case Some(RebatesReceived) => -p.rebate.amount
    case Some(_) => 0.0
    case None =>
      -Signed(side, p.tradeNotional.amount) + Signed(side, p.openedNotional.amount) + Signed(side, p.closedCostBasis.amount) - p.realizedTradingPnl.amount
  }

  /** A projection whose optional line groups are missing only when their amounts are zero. */
  predicate Coherent(p: Projection) {
    && p.closedQuantity >= 0.0 && p.openedQuantity >= 0.0 && p.fee.amount >= 0.0 && p.rebate.amount >= 0.0
    && (p.closedQuantity == 0.0 ==> p.closedCostBasis.amount == 0.0 && p.realizedTradingPnl.amount == 0.0)
    && (p.openedQuantity == 0.0 ==> p.openedNotional.amount == 0.0)
  }

  lemma ClosedTotal(side: Side, p: Projection, account: Option<AccountCode>)
    requires Coherent(p)
    ensures var c := p.tradeNotional.currency;
            Total(ClosedLines(side, p, c), account, c)
            == Amount(Line(PositionCost, Signed(side, p.closedCostBasis.amount), c), account, c)
               + Amount(Line(RealizedTradingPnl, -p.realizedTradingPnl.amount, c), account, c)
  {
    var c := p.tradeNotional.currency;
    if p.closedQuantity > 0.0 {
      var lines := ClosedLines(side, p, c);
      TotalOfTwo(lines[0], lines[1], account, c);
    }
  }

  lemma OpenedTotal(side: Side, p: Projection, account: Option<AccountCode>)
    requires Coherent(p)
    ensures var c := p.tradeNotional.currency;
            Total(OpenedLines(side, p, c), account, c) == Amount(Line(PositionCost, Signed(side, p.openedNotional.amount), c), account, c)
  {
    var c := p.tradeNotional.currency;
    if p.openedQuantity > 0.0 {
      TotalOfOne(OpenedLines(side, p, c)[0], account, c);
    }
  }

  lemma FeeAndRebateTotal(p: Projection, account: Option<AccountCode>)
    requires Coherent(p)
    ensures var c := p.tradeNotional.currency;
            Total(FeeLines(p, c), account, c) + Total(RebateLines(p, c), account, c)
            == Amount(Line(Cash, -p.fee.amount, c), account, c) + Amount(Line(FeesPaid, p.fee.amount, c), account, c)
               + Amount(Line(Cash, p.rebate.amount, c), account, c) + Amount(Line(RebatesReceived, -p.rebate.amount, c), account, c)
  {
    var c := p.tradeNotional.currency;
    if p.fee.amount > 0.0 {
      TotalOfTwo(FeeLines(p, c)[0], FeeLines(p, c)[1], account, c);
    }
    if p.rebate.amount > 0.0 {
      TotalOfTwo(RebateLines(p, c)[0], RebateLines(p, c)[1], account, c);
    }
  }

  lemma FillLinesBook(fill: Fill, p: Projection, account: Option<AccountCode>)
    requires Coherent(p)
    ensures Total(FillLines(fill, p), account, p.tradeNotional.currency) == Booked(fill, p, account)
  {
    var c := p.tradeNotional.currency;
    var side := fill.side;
    var trade := [Line(Cash, -Signed(side, p.tradeNotional.amount), c)];
    var closed, added, fees, rebates := ClosedLines(side, p, c), OpenedLines(side, p, c), FeeLines(p, c), RebateLines(p, c);
    TotalOfOne(trade[0], account, c);
    ClosedTotal(side, p, account);
    OpenedTotal(side, p, account);
    FeeAndRebateTotal(p, account);
    TotalConcat(trade, closed, account, c);
    TotalConcat(trade + closed, added, account, c);
    TotalConcat(trade + closed + added, fees, account, c);
    TotalConcat(trade + closed + added + fees, rebates, account, c);
    assert FillLines(fill, p) == trade + closed + added + fees + rebates;
  }

  lemma FillLinesInOneCurrency(fill: Fill, p: Projection)
    ensures FillLines(fill, p) != []
    ensures forall i :: 0 <= i < |FillLines(fill, p)| ==> FillLines(fill, p)[i].currency == p.tradeNotional.currency
  {
    forall i | 0 <= i < |FillLines(fill, p)|
      ensures FillLines(fill, p)[i].currency == p.tradeNotional.currency
    {
      assert FillLines(fill, p)[i] in FillLines(fill, p);
    }
  }

  // ----- the journal of a projected fill

  /**
   The journal of a step books exactly what the step did to the position: position cost is the change in
   quantity times average, the PnL accounts offset realized PnL, fees and rebates are the changes in the
   position's totals, and cash is what remains.
   */
  ghost predicate Books(before: Option<Position>, after: Option<Position>, lines: seq<JournalLine>, currency: string) {
    var realized := Realized(after) - Realized(before);
    var cost := Cost(after) - Cost(before);
    var fees := Fees(after) - Fees(before);
    var rebates := Rebates(after) - Rebates(before);
    && AccountTotal(lines, PositionCost, currency) == cost
    && AccountTotal(lines, RealizedTradingPnl, currency) + AccountTotal(lines, SettlementPnl, currency) == -realized
    && AccountTotal(lines, FeesPaid, currency) == fees
    && AccountTotal(lines, RebatesReceived, currency) == -rebates
    && AccountTotal(lines, Cash, currency) == realized - cost - fees + rebates
  }

  predicate OneCurrency(lines: seq<JournalLine>, currency: string) {
    forall i :: 0 <= i < |lines| ==> lines[i].currency == currency
  }

  lemma ProjectionCoheres(position: Option<Position>, fill: Fill, currency: string, positionId: Option<PositionId>, p: Projection)
    requires Projects(position, fill, currency, positionId, p)
    ensures Coherent(p) && CheckProjection(fill, p).Ok?
    ensures Booked(fill, p, None) == 0.0
  {
    hide Value;
    ValueZero(fill.price);
    ValueNonnegative(fill.quantity, fill.price);
    ValueNonnegative(p.closedQuantity, fill.price);
    ValueNonnegative(p.openedQuantity, fill.price);
    NotionalSplits(fill, p.closedQuantity, p.openedQuantity);
  }

  lemma ProjectionBooks(position: Option<Position>, fill: Fill, currency: string, positionId: Option<PositionId>, p: Projection)
    requires Projects(position, fill, currency, positionId, p)
    ensures Balanced(FillLines(fill, p)) && OneCurrency(FillLines(fill, p), currency)
    ensures Books(position, Some(p.position), FillLines(fill, p), currency)
    ensures AccountTotal(FillLines(fill, p), SettlementPnl, currency) == 0.0
  {
    hide FillLines, Cost;
    ProjectionCoheres(position, fill, currency, positionId, p);
    FillLinesInOneCurrency(fill, p);
    FillLinesBook(fill, p, None);
    FillLinesBook(fill, p, Some(Cash));
    FillLinesBook(fill, p, Some(PositionCost));
    FillLinesBook(fill, p, Some(RealizedTradingPnl));
    FillLinesBook(fill, p, Some(SettlementPnl));
    FillLinesBook(fill, p, Some(FeesPaid));
    FillLinesBook(fill, p, Some(RebatesReceived));
  }

  /**
   The journal of a projected fill is rejected only for a creation time before the fill. The consistency checks
   and the balance validator always pass, in exact arithmetic.
   */
  lemma FillJournals(position: Option<Position>, fill: Fill, currency: string, positionId: Option<PositionId>,
                     sourceEventId: string, createdAt: Time)
    requires ApplyFillToPosition(position, fill, currency, positionId).Ok?
    ensures var p := ApplyFillToPosition(position, fill, currency, positionId).value;
            var r := FillJournalEntry(fill, p, sourceEventId, createdAt);
            && (r.Ok? <==> fill.exchangeOccurredAt <= createdAt)
            && (r.Ok? ==>
                  && r.value.id == FillJournal(fill.fillId)
                  && r.value.occurredAt == fill.exchangeOccurredAt
                  && r.value.sourceEventId == sourceEventId && r.value.createdAt == createdAt
                  && OneCurrency(r.value.lines, currency)
                  && AccountTotal(r.value.lines, SettlementPnl, currency) == 0.0
                  && Books(position, Some(p.position), r.value.lines, currency))
  {
    hide ApplyFillToPosition, FillLines, CheckProjection, Books;
    FillProjects(position, fill, currency, positionId);
    var p := ApplyFillToPosition(position, fill, currency, positionId).value;
    ProjectionCoheres(position, fill, currency, positionId, p);
    ProjectionBooks(position, fill, currency, positionId, p);
    FillLinesInOneCurrency(fill, p);
  }

  // ----- any projection, even one that no fill made

  /** What the journal asks of a projection: one currency, nothing negative, and amounts that agree with the fill. */
  ghost predicate Consistent(fill: Fill, p: Projection) {
    var currency := p.tradeNotional.currency;
    && p.position.identity == fill.identity
    && currency == p.realizedTradingPnl.currency == p.fee.currency == p.rebate.currency
    && currency == p.closedCostBasis.currency == p.closedTradeValue.currency == p.openedNotional.currency
    && p.closedCostBasis.amount >= 0.0 && p.fee.amount >= 0.0 && p.rebate.amount >= 0.0
    && p.closedQuantity >= 0.0 && p.openedQuantity >= 0.0
    && p.closedQuantity + p.openedQuantity == fill.quantity
    && p.tradeNotional.amount == Value(fill.quantity, fill.price)
    && p.closedTradeValue.amount == Value(p.closedQuantity, fill.price)
    && p.openedNotional.amount == Value(p.openedQuantity, fill.price)
    && p.realizedTradingPnl.amount == (if fill.side.Buy? then p.closedCostBasis.amount - p.closedTradeValue.amount
                                       else p.closedTradeValue.amount - p.closedCostBasis.amount)
    && p.fee == (if fill.fee.Some? then fill.fee.value else Money(0.0, currency))
    && p.rebate == (if fill.rebate.Some? then fill.rebate.value else Money(0.0, currency))
  }

  /** Lines of a consistent projection cancel, even if it reports a cost for closing nothing: such a cost is not booked. */
  lemma {:induction false} ConsistentBalances(fill: Fill, p: Projection)
    requires Consistent(fill, p)
    ensures Balanced(FillLines(fill, p))
  {
    hide FillLines, Value;
    ValueZero(fill.price);
    NotionalSplits(fill, p.closedQuantity, p.openedQuantity);
    FillLinesInOneCurrency(fill, p);
    if p.closedQuantity == 0.0 {
      var zero := Money(0.0, p.tradeNotional.currency);
      var bare := p.(closedCostBasis := zero, realizedTradingPnl := zero);
      assert FillLines(fill, bare) == FillLines(fill, p) by { ClosedNothing(fill, p, bare); }
      FillLinesBook(fill, bare, None);
    } else {
      FillLinesBook(fill, p, None);
    }
  }

  lemma ClosedNothing(fill: Fill, p: Projection, bare: Projection)
    requires p.closedQuantity == 0.0
    requires bare == p.(closedCostBasis := bare.closedCostBasis, realizedTradingPnl := bare.realizedTradingPnl)
    ensures FillLines(fill, bare) == FillLines(fill, p)
  {
  }

  /** An entry is built for a projection exactly when it is consistent with the fill and not dated before it. */
  lemma {:induction false} EntryAcceptedIff(fill: Fill, p: Projection, sourceEventId: string, createdAt: Time)
    ensures var r := FillJournalEntry(fill, p, sourceEventId, createdAt);
            && (r.Ok? <==> Consistent(fill, p) && fill.exchangeOccurredAt <= createdAt)
            && (r.Ok? ==>
                  && r.value.id == FillJournal(fill.fillId) && r.value.lines == FillLines(fill, p)
                  && r.value.occurredAt == fill.exchangeOccurredAt && r.value.createdAt == createdAt
                  && r.value.sourceEventId == sourceEventId)
  {
    hide FillLines, Value, Balanced;
    ValueNonnegative(fill.quantity, fill.price);
    if p.closedQuantity >= 0.0 {
      ValueNonnegative(p.closedQuantity, fill.price);
    }
    if p.openedQuantity >= 0.0 {
      ValueNonnegative(p.openedQuantity, fill.price);
    }
    FillLinesInOneCurrency(fill, p);
    if Consistent(fill, p) {
      ConsistentBalances(fill, p);
    }
  }
}
