/**
 Whole runs of the ledger: fills, settlements and settlement corrections against one position and one cash balance.

 Each event is applied by the `..._once` operations; a fill's journal is then posted to the balance once. An event
 that raises anywhere leaves the ledger as it was.
 */
module LedgerRuns {
  import opened Common
  import opened Portfolio
  import opened Positions
  import opened Journals
  import opened Projections
  import opened Balances
  import opened Settlements
  import opened Pnl

  datatype Ledger = Ledger(
    position: Option<Position>, balance: CashBalance, fillIds: set<string>, journalIds: set<JournalId>, journals: seq<Journal>)

  datatype Event =
    | Filled(fill: Fill, sourceEventId: string, createdAt: Time)
    | SettledAt(settlement: Settlement, sourceEventId: string, createdAt: Time)
    | CorrectedTo(original: Position, previous: Settlement, corrected: Settlement, sourceEventId: string, createdAt: Time)

  function AfterFill(l: Ledger, e: Event, currency: string, positionId: Option<PositionId>): Ledger
    requires e.Filled?
  {
    var r := ApplyFillOnce(l.position, e.fill, l.fillIds, currency, e.sourceEventId, e.createdAt, positionId);
    if r.Err? || r.value.journal.None? then l
    else
      var cash := ApplyJournalOnce(l.balance, r.value.journal.value, l.journalIds);
      if cash.Err? then l
      else Ledger(r.value.position, cash.value.balance, r.value.appliedFillIds, cash.value.appliedIds,
                  l.journals + [r.value.journal.value])
  }

  function AfterApplication(l: Ledger, r: Result<Application, Error>): Ledger {
    if r.Err? || r.value.journal.None? then l
    else Ledger(Some(r.value.position), r.value.balance, l.fillIds, r.value.appliedIds, l.journals + [r.value.journal.value])
  }

  function Apply(l: Ledger, e: Event, currency: string, positionId: Option<PositionId>): Ledger {
    match e
    case Filled(_, _, _) => AfterFill(l, e, currency, positionId)
    case SettledAt(s, source, createdAt) =>
      if l.position.None? then l
      else AfterApplication(l, ApplySettlementOnce(l.position.value, l.balance, s, l.journalIds, currency, source, createdAt))
    case CorrectedTo(original, previous, corrected, source, createdAt) =>
      if l.position.None? then l
      else AfterApplication(l, ApplySettlementCorrectionOnce(original, l.position.value, l.balance, previous, corrected,
                                                             l.journalIds, currency, source, createdAt))
  }

  function Run(l: Ledger, events: seq<Event>, currency: string, positionId: Option<PositionId>): Ledger {
    if events == [] then l
    else Apply(Run(l, events[..|events| - 1], currency, positionId), events[|events| - 1], currency, positionId)
  }

  // ----- one event

  /** Posted fill journals belong to applied fills. */
  ghost predicate Consistent(l: Ledger) {
    && Sound(l.position)
    && (forall id :: id in l.journalIds && id.FillJournal? ==> id.fillId in l.fillIds)
  }

  /** An event that takes effect adds one new journal, which says exactly what it did to position and cash. */
  ghost predicate Advances(before: Ledger, after: Ledger, j: Journal, currency: string) {
    && Consistent(after)
    && after.journals == before.journals + [j]
    && j.id !in before.journalIds && after.journalIds == before.journalIds + {j.id}
    && OneCurrency(j.lines, currency)
    && Books(before.position, after.position, j.lines, currency)
    && after.balance.total == before.balance.total + AccountTotal(j.lines, Cash, currency)
    && after.balance.reserved == before.balance.reserved
    && Fees(before.position) <= Fees(after.position) && Rebates(before.position) <= Rebates(after.position)
  }

  lemma HasLineInCurrency(lines: seq<JournalLine>, account: AccountCode, currency: string, other: string)
    requires OneCurrency(lines, currency) && HasLine(lines, account, other)
    ensures other == currency
  {
  }

  lemma FillAdvances(l: Ledger, e: Event, currency: string, positionId: Option<PositionId>)
    requires Consistent(l) && e.Filled?
    ensures var m := AfterFill(l, e, currency, positionId);
            m == l || (m.journals != [] && Advances(l, m, m.journals[|m.journals| - 1], currency))
  {
    hide ApplyFillToPosition, FillJournalEntry, ApplyJournal, Books, AccountTotal;
    var m := AfterFill(l, e, currency, positionId);
    if m != l {
      var p := ApplyFillToPosition(l.position, e.fill, currency, positionId).value;
      var j := FillJournalEntry(e.fill, p, e.sourceEventId, e.createdAt).value;
      FillJournals(l.position, e.fill, currency, positionId, e.sourceEventId, e.createdAt);
      FillProjects(l.position, e.fill, currency, positionId);
      assert j.id !in l.journalIds;
      JournalApplies(l.balance, j, Cash);
      HasLineInCurrency(j.lines, Cash, currency, l.balance.currency);
    }
  }

  lemma SettlementAdvances(l: Ledger, e: Event, currency: string, positionId: Option<PositionId>)
    requires Consistent(l) && e.SettledAt?
    ensures var m := Apply(l, e, currency, positionId);
            m == l || (m.journals != [] && Advances(l, m, m.journals[|m.journals| - 1], currency))
  {
    hide ApplySettlementOnce, Worth, CostOf, Settleable, AccountTotal, OneCurrency;
    FlatCostsNothing();
    var m := Apply(l, e, currency, positionId);
    if m != l {
      var p := l.position.value;
      if SettlementJournal(p.positionId, e.settlement.settlementId) in l.journalIds {
        RepeatedIdAddsNothing(l, e, currency);
      } else {
        SettlementApplies(p, l.balance, e.settlement, l.journalIds, currency, e.sourceEventId, e.createdAt);
      }
    }
  }

  lemma RepeatedIdAddsNothing(l: Ledger, e: Event, currency: string)
    requires e.SettledAt? && l.position.Some?
    requires SettlementJournal(l.position.value.positionId, e.settlement.settlementId) in l.journalIds
    ensures var r := ApplySettlementOnce(l.position.value, l.balance, e.settlement, l.journalIds, currency, e.sourceEventId, e.createdAt);
            r.Err? || r.value.journal.None?
  {
  }

  lemma RepeatedCorrectionAddsNothing(l: Ledger, e: Event, currency: string)
    requires e.CorrectedTo? && l.position.Some?
    requires CorrectionJournalId(e.original, e.previous, e.corrected) in l.journalIds
    ensures var r := ApplySettlementCorrectionOnce(e.original, l.position.value, l.balance, e.previous, e.corrected,
                                                   l.journalIds, currency, e.sourceEventId, e.createdAt);
            r.Err? || r.value.journal.None?
  {
  }

  lemma CorrectionAdvances(l: Ledger, e: Event, currency: string, positionId: Option<PositionId>)
    requires Consistent(l) && e.CorrectedTo?
    ensures var m := Apply(l, e, currency, positionId);
            m == l || (m.journals != [] && Advances(l, m, m.journals[|m.journals| - 1], currency))
  {
    hide ApplySettlementCorrectionOnce, Worth, Cost, Correctable, AccountTotal, OneCurrency;
    var m := Apply(l, e, currency, positionId);
    if m != l {
      if CorrectionJournalId(e.original, e.previous, e.corrected) in l.journalIds {
        RepeatedCorrectionAddsNothing(l, e, currency);
      } else {
        CorrectionApplies(e.original, l.position.value, l.balance, e.previous, e.corrected,
                          l.journalIds, currency, e.sourceEventId, e.createdAt);
      }
    }
  }

  /** Exactly when a fill event takes effect, and the position that it leaves. */
  lemma {:induction false} FillTakesEffectIff(l: Ledger, e: Event, currency: string, positionId: Option<PositionId>)
    requires Consistent(l) && e.Filled?
    ensures var m := Apply(l, e, currency, positionId);
            && (m != l <==>
                  && e.fill.fillId !in l.fillIds
                  && Accepts(l.position, e.fill, currency, positionId)
                  && e.fill.exchangeOccurredAt <= e.createdAt
                  && l.balance.currency == currency && l.balance.capturedAt <= e.fill.exchangeOccurredAt)
            && (m != l ==>
                  && ApplyFillToPosition(l.position, e.fill, currency, positionId).Ok?
                  && m.position == Some(ApplyFillToPosition(l.position, e.fill, currency, positionId).value.position)
                  && m.fillIds == l.fillIds + {e.fill.fillId})
  {
    hide ApplyFillToPosition, FillJournalEntry, ApplyJournal, Books, AccountTotal, Accepts;
    FillProjects(l.position, e.fill, currency, positionId);
    if e.fill.fillId !in l.fillIds && ApplyFillToPosition(l.position, e.fill, currency, positionId).Ok? {
      FillJournals(l.position, e.fill, currency, positionId, e.sourceEventId, e.createdAt);
      var p := ApplyFillToPosition(l.position, e.fill, currency, positionId).value;
      var r := FillJournalEntry(e.fill, p, e.sourceEventId, e.createdAt);
      if r.Ok? {
        JournalApplies(l.balance, r.value, Cash);
        EntryAcceptedIff(e.fill, p, e.sourceEventId, e.createdAt);
        FirstLineIsCash(e.fill, p);
        assert p.tradeNotional.currency == currency;
        if HasLine(r.value.lines, Cash, l.balance.currency) {
          HasLineInCurrency(r.value.lines, Cash, currency, l.balance.currency);
        }
      }
    }
  }

  lemma FirstLineIsCash(fill: Fill, p: Projection)
    ensures HasLine(FillLines(fill, p), Cash, p.tradeNotional.currency)
  {
    assert FillLines(fill, p)[0].account == Cash;
  }

  /** Exactly when a settlement or a correction takes effect: it is new, and acceptable. */
  lemma {:induction false} SettlementTakesEffectIff(l: Ledger, e: Event, currency: string, positionId: Option<PositionId>)
    requires !e.Filled?
    ensures Apply(l, e, currency, positionId) != l <==>
              && l.position.Some?
              && (e.SettledAt? ==>
                    && SettlementJournal(l.position.value.positionId, e.settlement.settlementId) !in l.journalIds
                    && Settleable(l.position.value, l.balance, e.settlement, currency, e.createdAt))
              && (e.CorrectedTo? ==>
                    && CorrectionJournalId(e.original, e.previous, e.corrected) !in l.journalIds
                    && Correctable(e.original, l.position.value, l.balance, e.previous, e.corrected, currency, e.createdAt))
  {
    hide ApplySettlementOnce, ApplySettlementCorrectionOnce, Books, AccountTotal, OneCurrency, Settleable, Correctable, Worth, Cost;
    if l.position.Some? && e.SettledAt? {
      if SettlementJournal(l.position.value.positionId, e.settlement.settlementId) in l.journalIds {
        RepeatedIdAddsNothing(l, e, currency);
      } else {
        SettlementApplies(l.position.value, l.balance, e.settlement, l.journalIds, currency, e.sourceEventId, e.createdAt);
      }
    } else if l.position.Some? {
      if CorrectionJournalId(e.original, e.previous, e.corrected) in l.journalIds {
        RepeatedCorrectionAddsNothing(l, e, currency);
      } else {
        CorrectionApplies(e.original, l.position.value, l.balance, e.previous, e.corrected,
                          l.journalIds, currency, e.sourceEventId, e.createdAt);
      }
    }
  }

  lemma EveryEventAdvances(l: Ledger, e: Event, currency: string, positionId: Option<PositionId>)
    requires Consistent(l)
    ensures var m := Apply(l, e, currency, positionId);
            m == l || (m.journals != [] && Advances(l, m, m.journals[|m.journals| - 1], currency))
  {
    match e
    case Filled(_, _, _) => FillAdvances(l, e, currency, positionId);
    case SettledAt(_, _, _) => SettlementAdvances(l, e, currency, positionId);
    case CorrectedTo(_, _, _, _, _) => CorrectionAdvances(l, e, currency, positionId);
  }

  // ----- whole runs

  /** The journals of a run, summed by account, against the changes in position and cash over the run. */
  ghost predicate Reconciles(start: Ledger, l: Ledger, currency: string) {
    var realized := Realized(l.position) - Realized(start.position);
    var cost := Cost(l.position) - Cost(start.position);
    var fees := Fees(l.position) - Fees(start.position);
    var rebates := Rebates(l.position) - Rebates(start.position);
    && Consistent(l)
    && SumAccount(l.journals, PositionCost, currency) == cost
    && SumAccount(l.journals, RealizedTradingPnl, currency) + SumAccount(l.journals, SettlementPnl, currency) == -realized
    && SumAccount(l.journals, FeesPaid, currency) == fees && fees >= 0.0
    && SumAccount(l.journals, RebatesReceived, currency) == -rebates && rebates >= 0.0
    && l.balance.total - start.balance.total == SumAccount(l.journals, Cash, currency) == realized - cost - fees + rebates
    && l.balance.reserved == start.balance.reserved
    && UniqueIds(l.journals)
    && (forall i :: 0 <= i < |l.journals| ==> l.journals[i].id in l.journalIds)
  }

  lemma AdvanceReconciles(start: Ledger, before: Ledger, after: Ledger, j: Journal, currency: string)
    requires Reconciles(start, before, currency)
    requires Advances(before, after, j, currency)
    ensures Reconciles(start, after, currency)
  {
    hide Cost, AccountTotal, SumAccount, OneCurrency;
    SumAccountSnoc(before.journals, j, PositionCost, currency);
    SumAccountSnoc(before.journals, j, RealizedTradingPnl, currency);
    SumAccountSnoc(before.journals, j, SettlementPnl, currency);
    SumAccountSnoc(before.journals, j, FeesPaid, currency);
    SumAccountSnoc(before.journals, j, RebatesReceived, currency);
    SumAccountSnoc(before.journals, j, Cash, currency);
  }

  /**
   After any run of fills, settlements and corrections, duplicates and failures included, the position, the cash
   balance and the journals agree with one another.
   */
  lemma {:induction false} RunReconciles(start: Ledger, events: seq<Event>, currency: string, positionId: Option<PositionId>)
    requires Consistent(start) && start.journals == []
    ensures Reconciles(start, Run(start, events, currency, positionId), currency)
  {
    if events != [] {
      var earlier := events[..|events| - 1];
      RunReconciles(start, earlier, currency, positionId);
      var before := Run(start, earlier, currency, positionId);
      hide Apply, Reconciles, Advances;
      var after := Apply(before, events[|events| - 1], currency, positionId);
      ReconcilesConsistent(start, before, currency);
      EveryEventAdvances(before, events[|events| - 1], currency, positionId);
      if after != before {
        AdvanceReconciles(start, before, after, after.journals[|after.journals| - 1], currency);
      }
    }
  }

  lemma ReconcilesConsistent(start: Ledger, l: Ledger, currency: string)
    requires Reconciles(start, l, currency)
    ensures Consistent(l)
  {
  }

  /** From a flat start, the `position_cost` account carries exactly quantity times average price, and 0 when flat. */
  lemma CostAccountIsInventory(start: Ledger, events: seq<Event>, currency: string, positionId: Option<PositionId>)
    requires Consistent(start) && start.journals == [] && Quantity(start.position) == 0.0
    ensures var l := Run(start, events, currency, positionId);
            && Sound(l.position)
            && SumAccount(l.journals, PositionCost, currency)
               == (if l.position.Some? && l.position.value.averageEntryPrice.Some?
                   then l.position.value.quantity * l.position.value.averageEntryPrice.value else 0.0)
  {
    hide Run, SumAccount;
    RunReconciles(start, events, currency, positionId);
  }

  /**
   The three projections agree. The attribution of a run's journals is rejected only for a bad currency or period or for
   an optional amount in another currency; less the settlement amount given, its realized and settlement PnL are the
   change in the position's realized PnL, and the change in cash is what they come to after fees, rebates and the change
   in carried cost.
   */
  lemma ViewsAgree(start: Ledger, events: seq<Event>, currency: string, positionId: Option<PositionId>, startsAt: Time, endsAt: Time,
                   unrealized: Option<Money>, slippage: Option<Money>, settlement: Option<Money>)
    requires Consistent(start) && start.journals == []
    ensures var l := Run(start, events, currency, positionId);
            var r := BuildAttribution(l.journals, currency, startsAt, endsAt, unrealized, slippage, settlement);
            && (r.Ok? <==>
                  && ValidCurrency(currency) && startsAt < endsAt && WithinPeriod(l.journals, startsAt, endsAt)
                  && (unrealized.Some? ==> unrealized.value.currency == currency)
                  && (slippage.Some? ==> slippage.value.currency == currency)
                  && (settlement.Some? ==> settlement.value.currency == currency))
            && (r.Ok? ==>
                  var pnl := r.value.realizedTradingPnl + OptionalAmount(r.value.settlementPnl) - Given(settlement);
                  var cost := Cost(l.position) - Cost(start.position);
                  && pnl == Realized(l.position) - Realized(start.position)
                  && r.value.fees == Fees(l.position) - Fees(start.position)
                  && r.value.rebates == Rebates(l.position) - Rebates(start.position)
                  && l.balance.total - start.balance.total == pnl - r.value.fees + r.value.rebates - cost
                  && r.value.totalPnl == l.balance.total - start.balance.total + cost
                                         + Given(unrealized) + Given(slippage) + Given(settlement))
  {
    hide Run, Cost, SumAccount;
    RunReconciles(start, events, currency, positionId);
  }
}
