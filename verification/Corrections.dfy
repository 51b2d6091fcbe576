/** Any number of corrections of one settlement, one after another. */
module Corrections {
  import opened Common
  import opened Portfolio
  import opened Positions
  import opened Journals
  import opened Balances
  import opened Settlements
  import opened Reals

  datatype Correction = Correction(outcome: Settlement, sourceEventId: string, createdAt: Time)

  /** What stays the same over a series: the position and balance that were settled, the settlement, and how it was applied. */
  datatype Case = Case(p: Position, balance: CashBalance, s: Settlement, appliedIds: set<JournalId>,
                       currency: string, sourceEventId: string, createdAt: Time)

  /** The settlement and then the corrections in turn, each from the result of the one before; the first error ends it. */
  function SettleAndCorrect(k: Case, cs: seq<Correction>): Result<Application, Error> {
    if cs == [] then ApplySettlementOnce(k.p, k.balance, k.s, k.appliedIds, k.currency, k.sourceEventId, k.createdAt)
    else
      var r :- SettleAndCorrect(k, cs[..|cs| - 1]);
      var c := cs[|cs| - 1];
      ApplySettlementCorrectionOnce(k.p, r.position, r.balance, k.s, c.outcome, r.appliedIds, k.currency, c.sourceEventId, c.createdAt)
  }

  function IdOf(k: Case, c: Correction): JournalId {
    CorrectionJournalId(k.p, k.s, c.outcome)
  }

  function Ids(k: Case, cs: seq<Correction>): set<JournalId> {
    if cs == [] then {} else Ids(k, cs[..|cs| - 1]) + {IdOf(k, cs[|cs| - 1])}
  }

  /** The correction's id was applied before the series or earlier in it. */
  predicate Repeated(k: Case, earlier: seq<Correction>, c: Correction) {
    IdOf(k, c) in k.appliedIds + Ids(k, earlier)
  }

  /** How far the corrections together move the payout of one unit away from the settlement's. */
  function Drift(k: Case, cs: seq<Correction>): real {
    if cs == [] then 0.0
    else
      var earlier, c := cs[..|cs| - 1], cs[|cs| - 1];
      Drift(k, earlier) + (if Repeated(k, earlier, c) then 0.0 else Payout(k.p, c.outcome) - Payout(k.p, k.s))
  }

  /** When the last outcome that took effect was settled. */
  function LastAt(k: Case, cs: seq<Correction>): Option<Time> {
    if cs == [] then k.s.settledAt
    else
      var earlier, c := cs[..|cs| - 1], cs[|cs| - 1];
      if Repeated(k, earlier, c) then LastAt(k, earlier) else c.outcome.settledAt
  }

  /** When a whole series is accepted: each correction names the settlement, and those that take effect come in time order. */
  ghost predicate Acceptable(k: Case, cs: seq<Correction>) {
    if cs == [] then Settleable(k.p, k.balance, k.s, k.currency, k.createdAt)
    else
      var earlier, c := cs[..|cs| - 1], cs[|cs| - 1];
      && Acceptable(k, earlier)
      && CheckCorrected(k.p, k.s, c.outcome, k.currency).Ok?
      && (Repeated(k, earlier, c) ||
          (LastAt(k, earlier).Some? && LastAt(k, earlier).value <= c.outcome.settledAt.value <= c.createdAt))
  }

  /** What an accepted series leaves: cash and realized PnL as if the position had been paid the drifted payout. */
  ghost predicate Drifted(k: Case, cs: seq<Correction>, r: Application) {
    var payout := Payout(k.p, k.s) + Drift(k, cs);
    && LastAt(k, cs).Some?
    && r.balance == k.balance.(available := k.balance.available + Value(k.p.quantity, payout),
                               total := k.balance.total + Value(k.p.quantity, payout), capturedAt := LastAt(k, cs).value)
    && r.position.positionId == k.p.positionId && r.position.identity == k.p.identity
    && r.position.quantity == 0.0 && r.position.averageEntryPrice.None?
    && InCurrency(r.position, k.currency)
    && r.position.realizedPnl.amount == k.p.realizedPnl.amount + Value(k.p.quantity, payout) - Cost(Some(k.p))
    && r.position.lastUpdatedAt == LastAt(k, cs).value
    && r.appliedIds == k.appliedIds + {SettlementJournal(k.p.positionId, k.s.settlementId)} + Ids(k, cs)
  }

  /** The id of a correction is applied exactly when it is a repeat: no settlement has the same id. */
  lemma RepeatedIff(k: Case, earlier: seq<Correction>, c: Correction, r: Application)
    requires Drifted(k, earlier, r)
    ensures IdOf(k, c) in r.appliedIds <==> Repeated(k, earlier, c)
  {
  }

  /** A repeated correction passes its checks and changes nothing. */
  lemma {:induction false} RepeatDrifts(k: Case, cs: seq<Correction>, r: Application)
    requires cs != [] && Drifted(k, cs[..|cs| - 1], r) && Repeated(k, cs[..|cs| - 1], cs[|cs| - 1])
    requires ValidCurrency(k.currency) && CheckBalance(k.balance, k.p, k.currency).Ok?
    ensures var c := cs[|cs| - 1];
            var next := ApplySettlementCorrectionOnce(k.p, r.position, r.balance, k.s, c.outcome, r.appliedIds, k.currency, c.sourceEventId, c.createdAt);
            && (next.Ok? <==> CheckCorrected(k.p, k.s, c.outcome, k.currency).Ok?)
            && (next.Ok? ==> Drifted(k, cs, next.value))
  {
    hide Cost, Payout, Value, CheckCorrected;
    var earlier, settled := cs[..|cs| - 1], {SettlementJournal(k.p.positionId, k.s.settlementId)};
    assert k.appliedIds + settled + Ids(k, earlier) == k.appliedIds + settled + Ids(k, cs);
  }

  /** A new correction moves cash and realized PnL by its distance from the settlement. */
  lemma {:induction false} NewDrifts(k: Case, cs: seq<Correction>, r: Application)
    requires cs != [] && Drifted(k, cs[..|cs| - 1], r) && !Repeated(k, cs[..|cs| - 1], cs[|cs| - 1])
    requires ValidCurrency(k.currency) && CheckBalance(k.balance, k.p, k.currency).Ok?
    ensures var earlier, c := cs[..|cs| - 1], cs[|cs| - 1];
            var next := ApplySettlementCorrectionOnce(k.p, r.position, r.balance, k.s, c.outcome, r.appliedIds, k.currency, c.sourceEventId, c.createdAt);
            && (next.Ok? <==>
                  && CheckCorrected(k.p, k.s, c.outcome, k.currency).Ok?
                  && LastAt(k, earlier).value <= c.outcome.settledAt.value <= c.createdAt)
            && (next.Ok? ==> Drifted(k, cs, next.value))
  {
    hide Books, OneCurrency, Cost, Payout, Value, ApplySettlementCorrectionOnce;
    var earlier, c := cs[..|cs| - 1], cs[|cs| - 1];
    var settled := {SettlementJournal(k.p.positionId, k.s.settlementId)};
    RepeatedIff(k, earlier, c, r);
    CorrectionApplies(k.p, r.position, r.balance, k.s, c.outcome, r.appliedIds, k.currency, c.sourceEventId, c.createdAt);
    assert k.appliedIds + settled + Ids(k, earlier) + {IdOf(k, c)} == k.appliedIds + settled + Ids(k, cs);
    WorthDrifts(k, c, Payout(k.p, k.s) + Drift(k, earlier));
  }

  lemma WorthDrifts(k: Case, c: Correction, payout: real)
    ensures Value(k.p.quantity, payout) + (Worth(k.p, c.outcome) - Worth(k.p, k.s))
         == Value(k.p.quantity, payout + (Payout(k.p, c.outcome) - Payout(k.p, k.s)))
  {
    hide Payout, Value;
    var q, x, y := k.p.quantity, Payout(k.p, c.outcome), Payout(k.p, k.s);
    ValueSubtractPrice(q, x, y);
    ValueSubtractPrice(q, payout, y - x);
    ValueSubtractPrice(q, y, x);
  }

  /**
   Corrections of one settlement add up, however many there are. A series is accepted exactly when every correction
   names the settlement and those that take effect come in time order. Each moves cash and realized PnL by its distance
   from the settlement itself; a repeated one moves nothing.
   */
  lemma {:induction false} CorrectionsAddUp(k: Case, cs: seq<Correction>)
    requires SettlementJournal(k.p.positionId, k.s.settlementId) !in k.appliedIds
    ensures var r := SettleAndCorrect(k, cs);
            && (r.Ok? <==> Acceptable(k, cs))
            && (r.Ok? ==> Drifted(k, cs, r.value))
            && (r.Ok? ==> ValidCurrency(k.currency) && CheckBalance(k.balance, k.p, k.currency).Ok? && k.p.quantity != 0.0)
  {
    hide Drifted;
    if cs == [] {
      SettlementDrifts(k);
    } else {
      var earlier := cs[..|cs| - 1];
      CorrectionsAddUp(k, earlier);
      if Acceptable(k, earlier) {
        if Repeated(k, earlier, cs[|cs| - 1]) {
          RepeatDrifts(k, cs, SettleAndCorrect(k, earlier).value);
        } else {
          NewDrifts(k, cs, SettleAndCorrect(k, earlier).value);
        }
        assert LastAt(k, earlier).Some? by { DriftedHasTime(k, earlier, SettleAndCorrect(k, earlier).value); }
      }
    }
  }

  lemma DriftedHasTime(k: Case, cs: seq<Correction>, r: Application)
    requires Drifted(k, cs, r)
    ensures LastAt(k, cs).Some?
  {
  }

  lemma SettlementDrifts(k: Case)
    requires SettlementJournal(k.p.positionId, k.s.settlementId) !in k.appliedIds
    ensures var r := SettleAndCorrect(k, []);
            && (r.Ok? <==> Acceptable(k, []))
            && (r.Ok? ==> Drifted(k, [], r.value))
            && (r.Ok? ==> ValidCurrency(k.currency) && CheckBalance(k.balance, k.p, k.currency).Ok? && k.p.quantity != 0.0)
  {
    hide ApplySettlementOnce, Books, OneCurrency, Cost, Value, Payout;
    SettlementApplies(k.p, k.balance, k.s, k.appliedIds, k.currency, k.sourceEventId, k.createdAt);
    var r := ApplySettlementOnce(k.p, k.balance, k.s, k.appliedIds, k.currency, k.sourceEventId, k.createdAt);
    if r.Ok? {
      var settled := {SettlementJournal(k.p.positionId, k.s.settlementId)};
      assert k.appliedIds + settled + Ids(k, []) == k.appliedIds + settled;
      assert Worth(k.p, k.s) == Value(k.p.quantity, Payout(k.p, k.s) + Drift(k, []));
    }
  }

  /** The last outcome wins: cash and realized PnL are what settling with it directly would have left. */
  ghost predicate LastWins(k: Case, cs: seq<Correction>, r: Application)
    requires cs != []
  {
    var worth := Worth(k.p, cs[|cs| - 1].outcome);
    && r.balance.total == k.balance.total + worth
    && r.position.realizedPnl.amount == k.p.realizedPnl.amount + worth - Cost(Some(k.p))
  }

  lemma EqualValues(q: real, x: real, y: real)
    requires q != 0.0
    ensures Value(q, x) == Value(q, y) <==> x == y
  {
    if x != y {
      ValueNonzero(q, x - y);
      ValueSubtractPrice(q, x, y);
    }
  }

  /**
   The last of any number of corrections wins exactly when the ones before it cancel out: their payouts, less the
   settlement's, sum to zero. A last correction that is a repeat wins exactly when the series already pays what it says.
   */
  lemma {:induction false} LastCorrectionWinsIff(k: Case, cs: seq<Correction>)
    requires SettlementJournal(k.p.positionId, k.s.settlementId) !in k.appliedIds
    requires cs != [] && SettleAndCorrect(k, cs).Ok?
    ensures var earlier, c := cs[..|cs| - 1], cs[|cs| - 1];
            LastWins(k, cs, SettleAndCorrect(k, cs).value) <==>
              if Repeated(k, earlier, c) then Payout(k.p, k.s) + Drift(k, earlier) == Payout(k.p, c.outcome)
              else Drift(k, earlier) == 0.0
  {
    hide Acceptable, SettleAndCorrect, Value, Payout, Cost;
    CorrectionsAddUp(k, cs);
    EqualValues(k.p.quantity, Payout(k.p, k.s) + Drift(k, cs), Payout(k.p, cs[|cs| - 1].outcome));
  }

  // ----- instances

  /** One unit of an outcome, bought at 0.4 and not yet paid for out of an empty balance. */
  function Unit(id: Identity, currency: string): Position {
    var zero := Money(0.0, currency);
    RawPosition.Position(DerivedPosition(id), id, 1.0, Some(0.4), zero, zero, zero, zero, Some(0), 0, 1)
  }

  function EmptyBalance(id: Identity, currency: string): CashBalance
    requires ValidCurrency(currency)
  {
    RawBalance.Balance("b", id.exchange, id.accountId, currency, 0.0, 0.0, 0.0, 0)
  }

  function Loss(id: Identity, other: string): Settlement {
    RawSettlement.Settlement("s", id.marketId, id.exchange, Settled, [other], Some(1), Some(1.0), None)
  }

  function Win(id: Identity, name: string, at: Time): Settlement {
    RawSettlement.Settlement(name, id.marketId, id.exchange, Corrected, [id.outcomeId], Some(at), Some(1.0), Some("s"))
  }

  function LossOfUnit(id: Identity, other: string, currency: string): Case
    requires ValidCurrency(currency)
  {
    Case(Unit(id, currency), EmptyBalance(id, currency), Loss(id, other), {}, currency, "e", 9)
  }

  /** A unit settled as a loss, then corrected twice to pay 1: the cash ends at 2, not at 1. */
  lemma SecondCorrectionOverpays(id: Identity, other: string, currency: string, first: string, second: string)
    requires ValidCurrency(currency) && other != id.outcomeId && first != second
    ensures var k := LossOfUnit(id, other, currency);
            var cs := [Correction(Win(id, first, 2), "f", 9), Correction(Win(id, second, 3), "g", 9)];
            var r := SettleAndCorrect(k, cs);
            r.Ok? && r.value.balance.total == 2.0 && Worth(k.p, cs[1].outcome) == 1.0 && !LastWins(k, cs, r.value)
  {
    hide SettleAndCorrect;
    var k := LossOfUnit(id, other, currency);
    var one, two := Correction(Win(id, first, 2), "f", 9), Correction(Win(id, second, 3), "g", 9);
    assert [one, two][..1] == [one] && [one][..0] == [];
    assert Ids(k, []) == {} && Ids(k, [one]) == {IdOf(k, one)};
    assert Acceptable(k, []);
    assert Acceptable(k, [one]);
    assert Acceptable(k, [one, two]);
    assert Drift(k, []) == 0.0 && Drift(k, [one]) == 1.0 && Drift(k, [one, two]) == 2.0;
    CorrectionsAddUp(k, [one, two]);
  }

  // ----- corrections of settlements that never took effect

  /** The ids decide only whether a correction is a repeat: that its settlement was ever applied is not asked. */
  lemma {:induction false} CorrectionIgnoresWhetherSettled(
      original: Position, settled: Position, balance: CashBalance, s: Settlement, c: Settlement,
      ids: set<JournalId>, others: set<JournalId>, currency: string, sourceEventId: string, createdAt: Time)
    requires CorrectionJournalId(original, s, c) !in ids && CorrectionJournalId(original, s, c) !in others
    ensures var r := ApplySettlementCorrectionOnce(original, settled, balance, s, c, ids, currency, sourceEventId, createdAt);
            var t := ApplySettlementCorrectionOnce(original, settled, balance, s, c, others, currency, sourceEventId, createdAt);
            && (r.Ok? <==> t.Ok?)
            && (r.Ok? ==> r.value.position == t.value.position && r.value.balance == t.value.balance)
  {
    hide Books, OneCurrency, ApplySettlementCorrectionOnce, Worth;
    CorrectionApplies(original, settled, balance, s, c, ids, currency, sourceEventId, createdAt);
    CorrectionApplies(original, settled, balance, s, c, others, currency, sourceEventId, createdAt);
  }

  /**
   Settled before or not, a new correction takes effect exactly when it is correctable, and moves cash exactly when the
   two outcomes pay the original position differently.
   */
  lemma {:induction false} CorrectionMovesCashIff(
      original: Position, settled: Position, balance: CashBalance, s: Settlement, c: Settlement,
      ids: set<JournalId>, currency: string, sourceEventId: string, createdAt: Time)
    requires CorrectionJournalId(original, s, c) !in ids
    ensures var r := ApplySettlementCorrectionOnce(original, settled, balance, s, c, ids, currency, sourceEventId, createdAt);
            && (r.Ok? <==> Correctable(original, settled, balance, s, c, currency, createdAt))
            && (r.Ok? ==> (r.value.balance.total != balance.total <==> Payout(original, c) != Payout(original, s)))
  {
    hide Books, OneCurrency, ApplySettlementCorrectionOnce, Payout, Value;
    CorrectionApplies(original, settled, balance, s, c, ids, currency, sourceEventId, createdAt);
    if Correctable(original, settled, balance, s, c, currency, createdAt) {
      EqualValues(original.quantity, Payout(original, c), Payout(original, s));
    }
  }

  /** A unit sold again, so that it is flat, and a settlement that never took effect: its correction still pays 1. */
  lemma UnappliedSettlementPays(id: Identity, other: string, currency: string)
    requires ValidCurrency(currency) && other != id.outcomeId
    ensures var p := Unit(id, currency);
            var flat: Position := p.(quantity := 0.0, averageEntryPrice := None, openedAt := None);
            var r := ApplySettlementCorrectionOnce(p, flat, EmptyBalance(id, currency), Loss(id, other), Win(id, "w", 2), {}, currency, "e", 9);
            r.Ok? && r.value.applied && r.value.balance.total == 1.0 && r.value.position.realizedPnl.amount == 1.0
  {
    hide ApplySettlementCorrectionOnce;
    var p := Unit(id, currency);
    var flat: Position := p.(quantity := 0.0, averageEntryPrice := None, openedAt := None);
    CorrectionApplies(p, flat, EmptyBalance(id, currency), Loss(id, other), Win(id, "w", 2), {}, currency, "e", 9);
  }
}
