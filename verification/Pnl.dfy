/** PnL attribution from journals. */
module Pnl {
  import opened Common
  import opened Portfolio

  datatype Attribution = Attribution(
    realizedTradingPnl: real, unrealizedPnlChange: real, fees: real, rebates: real,
    slippage: Option<real>, settlementPnl: Option<real>, totalPnl: real)

  predicate UniqueIds(journals: seq<Journal>) {
    forall i, j :: 0 <= i < j < |journals| ==> journals[i].id != journals[j].id
  }

  predicate WithinPeriod(journals: seq<Journal>, startsAt: Time, endsAt: Time) {
    forall i :: 0 <= i < |journals| ==> startsAt <= journals[i].occurredAt < endsAt
  }

  function OptionalAmount(m: Option<real>): real {
    if m.Some? then m.value else 0.0
  }

  function CombineOptional(first: real, second: Option<real>): Option<real> {
    if first == 0.0 && second.None? then None else Some(first + OptionalAmount(second))
  }

  /** The optional money arguments, in the attribution currency. */
  function CheckMoney(m: Option<Money>, currency: string): Result<Option<real>, Error> {
    if m.None? then Ok(None)
    else if m.value.currency != currency then Err(CurrencyMismatch)
    else Ok(Some(m.value.amount))
  }

  function BuildAttribution(journals: seq<Journal>, currency: string, startsAt: Time, endsAt: Time,
                            unrealizedPnlChange: Option<Money>, slippage: Option<Money>, settlementPnl: Option<Money>)
    : Result<Attribution, Error>
  {
    if !ValidCurrency(currency) then Err(InvalidCurrency)
    else if !UniqueIds(journals) then Err(DuplicateJournal)
    else if endsAt <= startsAt then Err(InvalidPeriod)
    else if !WithinPeriod(journals, startsAt, endsAt) then Err(OutsidePeriod)
    else
      var realized := -SumAccount(journals, RealizedTradingPnl, currency);
      var fees := SumAccount(journals, FeesPaid, currency);
      var rebates := -SumAccount(journals, RebatesReceived, currency);
      if fees < 0.0 || rebates < 0.0 then Err(NegativeAmount) else
      var unrealized :- CheckMoney(unrealizedPnlChange, currency);
      var slip :- CheckMoney(slippage, currency);
      var extra :- CheckMoney(settlementPnl, currency);
      var settlement := CombineOptional(-SumAccount(journals, SettlementPnl, currency), extra);
      Ok(Attribution(realized, OptionalAmount(unrealized), fees, rebates, slip, settlement,
                     realized + OptionalAmount(unrealized) - fees + rebates + OptionalAmount(slip) + OptionalAmount(settlement)))
  }

  /** `_validate_unique_journal_entry_ids`: one pass with a set of seen ids. */
  method ValidateUniqueIds(journals: seq<Journal>) returns (r: Result<(), Error>)
    ensures r == if UniqueIds(journals) then Ok(()) else Err(DuplicateJournal)
  {
    var seen: set<JournalId> := {};
    for i := 0 to |journals|
      invariant forall k :: 0 <= k < i ==> journals[k].id in seen
      invariant forall id :: id in seen ==> exists k :: 0 <= k < i && journals[k].id == id
      invariant UniqueIds(journals[..i])
    {
      if journals[i].id in seen {
        return Err(DuplicateJournal);
      }
      seen := seen + {journals[i].id};
    }
    assert journals[..|journals|] == journals;
    return Ok(());
  }

  /** The amount of an optional money argument, or zero. */
  function Given(m: Option<Money>): real {
    if m.Some? then m.value.amount else 0.0
  }

  /**
   When an attribution is built, and every amount of it: PnL accounts with their signs turned, the optional amounts as
   given, and the total as what they come to less fees.
   */
  lemma {:induction false} AttributionIff(
      journals: seq<Journal>, currency: string, startsAt: Time, endsAt: Time,
      unrealized: Option<Money>, slippage: Option<Money>, settlement: Option<Money>)
    ensures var r := BuildAttribution(journals, currency, startsAt, endsAt, unrealized, slippage, settlement);
            var trading := SumAccount(journals, RealizedTradingPnl, currency);
            var settled := SumAccount(journals, SettlementPnl, currency);
            var fees := SumAccount(journals, FeesPaid, currency);
            var rebates := SumAccount(journals, RebatesReceived, currency);
            && (r.Ok? <==>
                  && |currency| == 3 && (forall i :: 0 <= i < 3 ==> 'A' <= currency[i] <= 'Z')
                  && (forall i, j :: 0 <= i < j < |journals| ==> journals[i].id != journals[j].id)
                  && startsAt < endsAt
                  && (forall i :: 0 <= i < |journals| ==> startsAt <= journals[i].occurredAt < endsAt)
                  && fees >= 0.0 && rebates <= 0.0
                  && (unrealized.Some? ==> unrealized.value.currency == currency)
                  && (slippage.Some? ==> slippage.value.currency == currency)
                  && (settlement.Some? ==> settlement.value.currency == currency))
            && (r.Ok? ==>
                  var a := r.value;
                  && a.realizedTradingPnl == -trading && a.fees == fees && a.rebates == -rebates
                  && a.unrealizedPnlChange == Given(unrealized)
                  && a.slippage == (if slippage.Some? then Some(slippage.value.amount) else None)
                  && a.settlementPnl == (if settled == 0.0 && settlement.None? then None else Some(Given(settlement) - settled))
                  && a.totalPnl == -trading + Given(unrealized) - fees - rebates + Given(slippage) + Given(settlement) - settled)
  {
    hide SumAccount;
  }
}
