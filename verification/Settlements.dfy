/** Closing a position through a settled market outcome, and correcting that outcome later. */
module Settlements {
  import opened Common
  import opened Portfolio
  import opened Positions
  import opened Journals
  import opened Balances
  import opened Reals

  datatype Accounting = Accounting(cashDelta: real, costBasis: real, settlementPnl: real, settledQuantity: real, winning: bool)

  function CheckSettlementPosition(p: Position, s: Settlement, currency: string, status: SettlementStatus): Result<(), Error> {
    if s.status != status then Err(StatusNotAllowed)
    else if s.settledAt.None? || s.payoutPerUnit.None? then Err(MissingSettlementField)
    else if p.identity.exchange != s.exchange || p.identity.marketId != s.marketId then Err(IdentityMismatch)
    else if p.quantity == 0.0 then Err(FlatPosition)
    else if p.averageEntryPrice.None? then Err(OpenWithoutAverage)
    else if !InCurrency(p, currency) then Err(CurrencyMismatch)
    else Ok(())
  }

  /** What one unit of the position is worth under the outcome. */
  function Payout(p: Position, s: Settlement): real {
    if p.identity.outcomeId in s.winning && s.payoutPerUnit.Some? then s.payoutPerUnit.value else 0.0
  }

  /** What the whole position is worth under the outcome. */
  function Worth(p: Position, s: Settlement): real {
    Value(p.quantity, Payout(p, s))
  }

  function Settle(p: Position, s: Settlement, currency: string, status: SettlementStatus): Result<Accounting, Error> {
    var _ :- CheckSettlementPosition(p, s, currency, status);
    var costBasis := CostOf(p.quantity, p.averageEntryPrice);
    var cashDelta := Worth(p, s);
    Ok(Accounting(cashDelta, costBasis, cashDelta - costBasis, Abs(p.quantity), p.identity.outcomeId in s.winning))
  }

  /** The flat position that a settlement or a correction leaves. */
  function Closed(p: Position, pnl: real, currency: string, at: Time): RawPosition {
    RawPosition.Position(p.positionId, p.identity, 0.0, None,
      Money(p.realizedPnl.amount + pnl, currency), Money(0.0, currency),
      p.feesPaid, p.rebatesReceived, None, at, p.aggregateVersion + 1)
  }

  function SettlementLines(cashDelta: real, costBasis: real, pnl: real, currency: string): seq<JournalLine> {
    [Line(Cash, cashDelta, currency), Line(PositionCost, -costBasis, currency), Line(SettlementPnl, -pnl, currency)]
  }

  datatype Application = Application(
    position: Position, balance: CashBalance, journal: Option<Journal>, appliedIds: set<JournalId>, applied: bool)

  function CheckBalance(balance: CashBalance, p: Position, currency: string): Result<(), Error> {
    if balance.exchange != p.identity.exchange || balance.accountId != p.identity.accountId then Err(IdentityMismatch)
    else if balance.currency != currency then Err(CurrencyMismatch)
    else Ok(())
  }

  function ApplySettlementOnce(p: Position, balance: CashBalance, s: Settlement, appliedIds: set<JournalId>,
                               currency: string, sourceEventId: string, createdAt: Time): Result<Application, Error>
  {
    if !ValidCurrency(currency) then Err(InvalidCurrency) else
    var _ :- CheckBalance(balance, p, currency);
    var id := SettlementJournal(p.positionId, s.settlementId);
    if id in appliedIds then Ok(Application(p, balance, None, appliedIds, false)) else
    var a :- Settle(p, s, currency, Settled);
    if s.settledAt.value < p.lastUpdatedAt then Err(StaleEvent) else
    var after :- MakePosition(Closed(p, a.settlementPnl, currency, s.settledAt.value));
    var j :- MakeJournal(RawJournal.Journal(id, s.settledAt.value, sourceEventId,
                         SettlementLines(a.cashDelta, a.costBasis, a.settlementPnl, currency), createdAt));
    var cash :- ApplyJournal(balance, j, Cash);
    Ok(Application(after, cash.balance, Some(j), appliedIds + {id}, true))
  }

  // ----- corrections

  datatype CorrectionAccounting = CorrectionAccounting(cashDelta: real, costBasisDelta: real, settlementPnlDelta: real)

  function CheckCorrected(original: Position, previous: Settlement, corrected: Settlement, currency: string): Result<(), Error> {
    if corrected.status != Corrected then Err(StatusNotAllowed)
    else if corrected.correctionOf != Some(previous.settlementId) then Err(NotACorrectionOf)
    else
      var _ :- CheckSettlementPosition(original, previous, currency, Settled);
      CheckSettlementPosition(original, corrected, currency, Corrected)
  }

  function SettleCorrection(original: Position, previous: Settlement, corrected: Settlement, currency: string)
    : Result<CorrectionAccounting, Error>
  {
    var _ :- CheckCorrected(original, previous, corrected, currency);
    var before :- Settle(original, previous, currency, Settled);
    var after :- Settle(original, corrected, currency, Corrected);
    Ok(CorrectionAccounting(after.cashDelta - before.cashDelta, after.costBasis - before.costBasis,
                            after.settlementPnl - before.settlementPnl))
  }

  function CheckCorrectionInputs(original: Position, settled: Position, balance: CashBalance, previous: Settlement,
                                 corrected: Settlement, currency: string): Result<(), Error>
  {
    var _ :- CheckBalance(balance, settled, currency);
    var _ :- CheckCorrected(original, previous, corrected, currency);
    if original.positionId != settled.positionId || original.identity != settled.identity then Err(IdentityMismatch)
    else if settled.quantity != 0.0 then Err(NotFlat)
    else if settled.averageEntryPrice.Some? then Err(FlatWithAverage)
    else if !InCurrency(settled, currency) then Err(CurrencyMismatch)
    else Ok(())
  }

  function CorrectionJournalId(original: Position, previous: Settlement, corrected: Settlement): JournalId {
    SettlementCorrectionJournal(original.positionId, previous.settlementId, corrected.settlementId)
  }

  function ApplySettlementCorrectionOnce(
      original: Position, settled: Position, balance: CashBalance, previous: Settlement, corrected: Settlement,
      appliedIds: set<JournalId>, currency: string, sourceEventId: string, createdAt: Time): Result<Application, Error>
  {
    if !ValidCurrency(currency) then Err(InvalidCurrency) else
    var _ :- CheckCorrectionInputs(original, settled, balance, previous, corrected, currency);
    var id := CorrectionJournalId(original, previous, corrected);
    if id in appliedIds then Ok(Application(settled, balance, None, appliedIds, false)) else
    if corrected.settledAt.value < settled.lastUpdatedAt then Err(StaleEvent) else
    var a :- SettleCorrection(original, previous, corrected, currency);
    var j :- MakeJournal(RawJournal.Journal(id, corrected.settledAt.value, sourceEventId,
                         SettlementLines(a.cashDelta, a.costBasisDelta, a.settlementPnlDelta, currency), createdAt));
    var cash :- ApplyJournal(balance, j, Cash);
    var after :- MakePosition(Closed(settled, a.settlementPnlDelta, currency, corrected.settledAt.value));
    Ok(Application(after, cash.balance, Some(j), appliedIds + {id}, true))
  }

  /** A settled settlement always has its time and its payout: only a corrected one can lack a field. */
  lemma SettledMissesNothing(p: Position, s: Settlement, currency: string)
    ensures CheckSettlementPosition(p, s, currency, Settled) != Err(MissingSettlementField)
  {
  }

  // ----- one settlement

  lemma SettlementLinesBook(cashDelta: real, costBasis: real, pnl: real, currency: string)
    requires pnl == cashDelta - costBasis
    ensures var lines := SettlementLines(cashDelta, costBasis, pnl, currency);
            && Balanced(lines) && OneCurrency(lines, currency) && HasLine(lines, Cash, currency)
            && AccountTotal(lines, Cash, currency) == cashDelta
            && AccountTotal(lines, PositionCost, currency) == -costBasis
            && AccountTotal(lines, SettlementPnl, currency) == -pnl
            && AccountTotal(lines, RealizedTradingPnl, currency) == 0.0
            && AccountTotal(lines, FeesPaid, currency) == 0.0
            && AccountTotal(lines, RebatesReceived, currency) == 0.0
  {
    var lines := SettlementLines(cashDelta, costBasis, pnl, currency);
    assert lines[0].account == Cash;
    TotalOfThree(lines[0], lines[1], lines[2], None, currency);
    TotalOfThree(lines[0], lines[1], lines[2], Some(Cash), currency);
    TotalOfThree(lines[0], lines[1], lines[2], Some(PositionCost), currency);
    TotalOfThree(lines[0], lines[1], lines[2], Some(SettlementPnl), currency);
    TotalOfThree(lines[0], lines[1], lines[2], Some(RealizedTradingPnl), currency);
    TotalOfThree(lines[0], lines[1], lines[2], Some(FeesPaid), currency);
    TotalOfThree(lines[0], lines[1], lines[2], Some(RebatesReceived), currency);
  }

  /** When a settlement that has not been applied is accepted. */
  ghost predicate Settleable(p: Position, balance: CashBalance, s: Settlement, currency: string, createdAt: Time) {
    && |currency| == 3 && (forall i :: 0 <= i < 3 ==> 'A' <= currency[i] <= 'Z')
    && ForPosition(balance, p, currency)
    && s.status == Settled && s.settledAt.Some?
    && Settles(s, p, currency)
    && p.lastUpdatedAt <= s.settledAt.value <= createdAt
    && balance.capturedAt <= s.settledAt.value
  }

  /** The balance is the position's account, in the currency. */
  predicate ForPosition(balance: CashBalance, p: Position, currency: string) {
    balance.exchange == p.identity.exchange && balance.accountId == p.identity.accountId && balance.currency == currency
  }

  /** The settlement has a payout, is of the position's market, and the position is open, averaged and in the currency. */
  predicate Settles(s: Settlement, p: Position, currency: string) {
    && s.payoutPerUnit.Some?
    && s.exchange == p.identity.exchange && s.marketId == p.identity.marketId
    && p.quantity != 0.0 && p.averageEntryPrice.Some?
    && currency == p.realizedPnl.currency == p.unrealizedPnl.currency == p.feesPaid.currency == p.rebatesReceived.currency
  }

  /** What a settlement leaves: cash is quantity times payout, PnL is that cash less the cost carried. */
  ghost predicate SettledAs(p: Position, balance: CashBalance, s: Settlement, currency: string, r: Application) {
    && s.settledAt.Some?
    && r.position == Closed(p, Worth(p, s) - Cost(Some(p)), currency, s.settledAt.value)
    && r.balance == balance.(available := balance.available + Worth(p, s), total := balance.total + Worth(p, s),
                             capturedAt := s.settledAt.value)
  }

  lemma FlatCostsNothing()
    ensures CostOf(0.0, None) == 0.0
  {
  }

  lemma SettlementApplies(p: Position, balance: CashBalance, s: Settlement, appliedIds: set<JournalId>,
                          currency: string, sourceEventId: string, createdAt: Time)
    requires SettlementJournal(p.positionId, s.settlementId) !in appliedIds
    ensures var r := ApplySettlementOnce(p, balance, s, appliedIds, currency, sourceEventId, createdAt);
            && (r.Ok? <==> Settleable(p, balance, s, currency, createdAt))
            && (r.Ok? ==>
                  && r.value.applied && r.value.journal.Some?
                  && r.value.journal.value.id == SettlementJournal(p.positionId, s.settlementId)
                  && r.value.appliedIds == appliedIds + {SettlementJournal(p.positionId, s.settlementId)}
                  && InCurrency(r.value.position, currency)
                  && OneCurrency(r.value.journal.value.lines, currency)
                  && s.settledAt == Some(r.value.journal.value.occurredAt)
                  && SettledAs(p, balance, s, currency, r.value)
                  && s.payoutPerUnit.Some?
                  && r.value.balance.total - balance.total == r.value.balance.available - balance.available
                     == (if p.identity.outcomeId in s.winning then p.quantity * s.payoutPerUnit.value else 0.0)
                  && Books(Some(p), Some(r.value.position), r.value.journal.value.lines, currency))
  {
    hide SettlementLines, Worth, CostOf;
    if Settleable(p, balance, s, currency, createdAt) {
      var a := Settle(p, s, currency, Settled).value;
      SettlementLinesBook(a.cashDelta, a.costBasis, a.settlementPnl, currency);
      FlatCostsNothing();
      PaidInFull(p, s);
    }
  }

  // ----- one correction

  /** When a correction that has not been applied is accepted. */
  ghost predicate Correctable(original: Position, settled: Position, balance: CashBalance, previous: Settlement,
                              corrected: Settlement, currency: string, createdAt: Time) {
    && |currency| == 3 && (forall i :: 0 <= i < 3 ==> 'A' <= currency[i] <= 'Z')
    && ForPosition(balance, settled, currency)
    && corrected.status == Corrected && corrected.settledAt.Some? && corrected.correctionOf == Some(previous.settlementId)
    && previous.status == Settled && previous.settledAt.Some?
    && Settles(previous, original, currency) && Settles(corrected, original, currency)
    && original.positionId == settled.positionId && original.identity == settled.identity
    && settled.quantity == 0.0 && settled.averageEntryPrice.None?
    && currency == settled.realizedPnl.currency == settled.unrealizedPnl.currency
    && currency == settled.feesPaid.currency == settled.rebatesReceived.currency
    && settled.lastUpdatedAt <= corrected.settledAt.value <= createdAt
    && balance.capturedAt <= corrected.settledAt.value
  }

  /** What a correction leaves: cash and PnL both move by the difference between the two outcomes. */
  ghost predicate CorrectedAs(original: Position, settled: Position, balance: CashBalance, previous: Settlement,
                              corrected: Settlement, currency: string, r: Application) {
    var delta := Worth(original, corrected) - Worth(original, previous);
    && corrected.settledAt.Some?
    && r.position == Closed(settled, delta, currency, corrected.settledAt.value)
    && r.balance == balance.(available := balance.available + delta, total := balance.total + delta,
                             capturedAt := corrected.settledAt.value)
  }

  lemma CorrectionApplies(original: Position, settled: Position, balance: CashBalance, previous: Settlement, corrected: Settlement,
                          appliedIds: set<JournalId>, currency: string, sourceEventId: string, createdAt: Time)
    requires CorrectionJournalId(original, previous, corrected) !in appliedIds
    ensures var r := ApplySettlementCorrectionOnce(original, settled, balance, previous, corrected, appliedIds,
                                                   currency, sourceEventId, createdAt);
            && (r.Ok? <==> Correctable(original, settled, balance, previous, corrected, currency, createdAt))
            && (r.Ok? ==>
                  && r.value.applied && r.value.journal.Some?
                  && r.value.journal.value.id == CorrectionJournalId(original, previous, corrected)
                  && r.value.appliedIds == appliedIds + {CorrectionJournalId(original, previous, corrected)}
                  && OneCurrency(r.value.journal.value.lines, currency)
                  && AccountTotal(r.value.journal.value.lines, PositionCost, currency) == 0.0
                  && corrected.settledAt == Some(r.value.journal.value.occurredAt)
                  && CorrectedAs(original, settled, balance, previous, corrected, currency, r.value)
                  && previous.payoutPerUnit.Some? && corrected.payoutPerUnit.Some?
                  && r.value.balance.total - balance.total == r.value.balance.available - balance.available
                     == (if original.identity.outcomeId in corrected.winning
                         then original.quantity * corrected.payoutPerUnit.value else 0.0)
                        - (if original.identity.outcomeId in previous.winning
                           then original.quantity * previous.payoutPerUnit.value else 0.0)
                  && Books(Some(settled), Some(r.value.position), r.value.journal.value.lines, currency))
  {
    hide SettlementLines, Worth, CostOf;
    if Correctable(original, settled, balance, previous, corrected, currency, createdAt) {
      var a := SettleCorrection(original, previous, corrected, currency).value;
      SettlementLinesBook(a.cashDelta, a.costBasisDelta, a.settlementPnlDelta, currency);
      PaidInFull(original, previous);
      PaidInFull(original, corrected);
    }
  }

  /** Two corrections have one id exactly when they correct one settlement of one position by one outcome. */
  lemma CorrectionIdsAgreeIff(p: Position, s: Settlement, c: Settlement, q: Position, t: Settlement, d: Settlement)
    ensures CorrectionJournalId(p, s, c) == CorrectionJournalId(q, t, d) <==>
              p.positionId == q.positionId && s.settlementId == t.settlementId && c.settlementId == d.settlementId
  {
  }

  // ----- the amounts written out

  /**
   A settlement that takes effect, in numbers: a position in a winning outcome is paid its quantity times the payout of one
   unit, and any other nothing; realized PnL gains that less quantity times average price; nothing else is left open.
   */
  lemma {:induction false} SettlementPays(p: Position, balance: CashBalance, s: Settlement, appliedIds: set<JournalId>,
                                          currency: string, sourceEventId: string, createdAt: Time)
    requires SettlementJournal(p.positionId, s.settlementId) !in appliedIds
    requires ApplySettlementOnce(p, balance, s, appliedIds, currency, sourceEventId, createdAt).Ok?
    ensures s.payoutPerUnit.Some? && s.settledAt.Some? && p.averageEntryPrice.Some?
    ensures var r := ApplySettlementOnce(p, balance, s, appliedIds, currency, sourceEventId, createdAt).value;
            var paid := if p.identity.outcomeId in s.winning then p.quantity * s.payoutPerUnit.value else 0.0;
            && r.balance.total == balance.total + paid && r.balance.available == balance.available + paid
            && r.balance == balance.(total := r.balance.total, available := r.balance.available, capturedAt := s.settledAt.value)
            && r.position == p.(quantity := 0.0, averageEntryPrice := None, openedAt := None,
                                realizedPnl := Money(p.realizedPnl.amount + paid - p.quantity * p.averageEntryPrice.value, currency),
                                unrealizedPnl := Money(0.0, currency), lastUpdatedAt := s.settledAt.value,
                                aggregateVersion := p.aggregateVersion + 1)
            && r.journal.value.occurredAt == s.settledAt.value && r.journal.value.createdAt == createdAt
            && r.journal.value.sourceEventId == sourceEventId
  {
    hide Books, OneCurrency, SettlementLines;
    SettlementApplies(p, balance, s, appliedIds, currency, sourceEventId, createdAt);
    PaidInFull(p, s);
  }

  lemma PaidInFull(p: Position, s: Settlement)
    requires s.payoutPerUnit.Some?
    ensures Worth(p, s) == if p.identity.outcomeId in s.winning then p.quantity * s.payoutPerUnit.value else 0.0
    ensures p.averageEntryPrice.Some? ==> Cost(Some(p)) == p.quantity * p.averageEntryPrice.value
  {
    ValueZero(p.quantity);
  }

  /** A correction that takes effect, in numbers: what the corrected outcome pays less what the settled one paid. */
  lemma {:induction false} CorrectionPays(
      original: Position, settled: Position, balance: CashBalance, previous: Settlement, corrected: Settlement,
      appliedIds: set<JournalId>, currency: string, sourceEventId: string, createdAt: Time)
    requires CorrectionJournalId(original, previous, corrected) !in appliedIds
    requires ApplySettlementCorrectionOnce(original, settled, balance, previous, corrected, appliedIds, currency, sourceEventId, createdAt).Ok?
    ensures previous.payoutPerUnit.Some? && corrected.payoutPerUnit.Some? && corrected.settledAt.Some?
    ensures var r := ApplySettlementCorrectionOnce(original, settled, balance, previous, corrected, appliedIds,
                                                   currency, sourceEventId, createdAt).value;
            var before := if original.identity.outcomeId in previous.winning then original.quantity * previous.payoutPerUnit.value else 0.0;
            var now := if original.identity.outcomeId in corrected.winning then original.quantity * corrected.payoutPerUnit.value else 0.0;
            && r.balance.total == balance.total + (now - before) && r.balance.available == balance.available + (now - before)
            && r.balance == balance.(total := r.balance.total, available := r.balance.available, capturedAt := corrected.settledAt.value)
            && r.position == settled.(realizedPnl := Money(settled.realizedPnl.amount + (now - before), currency),
                                      unrealizedPnl := Money(0.0, currency), openedAt := None,
                                      lastUpdatedAt := corrected.settledAt.value, aggregateVersion := settled.aggregateVersion + 1)
            && r.journal.value.occurredAt == corrected.settledAt.value && r.journal.value.createdAt == createdAt
            && r.journal.value.sourceEventId == sourceEventId
  {
    hide Books, OneCurrency, SettlementLines, Worth;
    CorrectionApplies(original, settled, balance, previous, corrected, appliedIds, currency, sourceEventId, createdAt);
    PaidInFull(original, previous);
    PaidInFull(original, corrected);
  }

  // ----- a correction replaces a settlement

  /** The corrected outcome, as if it had been the settled one from the start. */
  function AsSettled(corrected: Settlement): RawSettlement {
    corrected.(status := Settled, correctionOf := None)
  }

  lemma SameWorth(p: Position, c: Settlement)
    requires ValidSettlement(AsSettled(c))
    ensures Worth(p, AsSettled(c)) == Worth(p, c)
  {
  }

  /**
   Settling and then correcting once leaves the same position and the same cash as settling with the corrected
   outcome directly; only the version counts the extra step.
   */
  lemma CorrectionReplacesSettlement(
      p: Position, balance: CashBalance, s: Settlement, c: Settlement, appliedIds: set<JournalId>, currency: string,
      sourceEventId: string, createdAt: Time, correctionSourceId: string, correctedAt: Time)
    requires SettlementJournal(p.positionId, s.settlementId) !in appliedIds
    requires SettlementJournal(p.positionId, c.settlementId) !in appliedIds
    requires CorrectionJournalId(p, s, c) !in appliedIds
    requires ApplySettlementOnce(p, balance, s, appliedIds, currency, sourceEventId, createdAt).Ok?
    requires var first := ApplySettlementOnce(p, balance, s, appliedIds, currency, sourceEventId, createdAt).value;
             ApplySettlementCorrectionOnce(p, first.position, first.balance, s, c, first.appliedIds, currency, correctionSourceId, correctedAt).Ok?
    ensures ValidSettlement(AsSettled(c))
    ensures var first := ApplySettlementOnce(p, balance, s, appliedIds, currency, sourceEventId, createdAt).value;
            var second := ApplySettlementCorrectionOnce(p, first.position, first.balance, s, c, first.appliedIds, currency, correctionSourceId, correctedAt).value;
            var direct := ApplySettlementOnce(p, balance, AsSettled(c), appliedIds, currency, correctionSourceId, correctedAt);
            && direct.Ok?
            && second.balance == direct.value.balance
            && second.position == direct.value.position.(aggregateVersion := direct.value.position.aggregateVersion + 1)
  {
    hide ApplySettlementOnce, ApplySettlementCorrectionOnce, Books, OneCurrency, Cost, Worth;
    var first := ApplySettlementOnce(p, balance, s, appliedIds, currency, sourceEventId, createdAt).value;
    SettlementApplies(p, balance, s, appliedIds, currency, sourceEventId, createdAt);
    CorrectionApplies(p, first.position, first.balance, s, c, first.appliedIds, currency, correctionSourceId, correctedAt);
    SettlementApplies(p, balance, AsSettled(c), appliedIds, currency, correctionSourceId, correctedAt);
    SameWorth(p, c);
  }

  /** Repeating a settlement on its own result is reported as a duplicate and changes nothing. */
  lemma RepeatedSettlementIsNoOp(
      p: Position, balance: CashBalance, s: Settlement, appliedIds: set<JournalId>, currency: string,
      sourceEventId: string, createdAt: Time)
    requires ApplySettlementOnce(p, balance, s, appliedIds, currency, sourceEventId, createdAt).Ok?
    ensures var r := ApplySettlementOnce(p, balance, s, appliedIds, currency, sourceEventId, createdAt).value;
            ApplySettlementOnce(r.position, r.balance, s, r.appliedIds, currency, sourceEventId, createdAt)
            == Ok(Application(r.position, r.balance, None, r.appliedIds, false))
  {
    hide Books, OneCurrency, SettlementLines, Worth, CostOf;
    if SettlementJournal(p.positionId, s.settlementId) !in appliedIds {
      SettlementApplies(p, balance, s, appliedIds, currency, sourceEventId, createdAt);
    }
  }

  /** Repeating a correction on its own result is reported as a duplicate and changes nothing. */
  lemma RepeatedCorrectionIsNoOp(
      original: Position, settled: Position, balance: CashBalance, s: Settlement, c: Settlement, appliedIds: set<JournalId>,
      currency: string, sourceEventId: string, createdAt: Time)
    requires ApplySettlementCorrectionOnce(original, settled, balance, s, c, appliedIds, currency, sourceEventId, createdAt).Ok?
    ensures var r := ApplySettlementCorrectionOnce(original, settled, balance, s, c, appliedIds, currency, sourceEventId, createdAt).value;
            ApplySettlementCorrectionOnce(original, r.position, r.balance, s, c, r.appliedIds, currency, sourceEventId, createdAt)
            == Ok(Application(r.position, r.balance, None, r.appliedIds, false))
  {
    hide Books, OneCurrency, SettlementLines, Worth, CostOf;
    if CorrectionJournalId(original, s, c) !in appliedIds {
      CorrectionApplies(original, settled, balance, s, c, appliedIds, currency, sourceEventId, createdAt);
    }
  }

  /** A correction can only correct a settled settlement, never an earlier correction. */
  lemma CorrectionOfCorrectionIsRejected(
      original: Position, settled: Position, balance: CashBalance, previous: Settlement, corrected: Settlement,
      appliedIds: set<JournalId>, currency: string, sourceEventId: string, createdAt: Time)
    requires previous.status == Corrected
    ensures ApplySettlementCorrectionOnce(original, settled, balance, previous, corrected, appliedIds, currency, sourceEventId, createdAt).Err?
  {
  }
}
