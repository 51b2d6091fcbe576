/**
 The portfolio schemas: money, fills, positions, journal entries, cash balances and settlements.

 Decimals are exact reals. Each schema is a record type plus its validators; the subset type holds
 exactly the records that the validators accept, and `Make...` is construction, which raises otherwise.
 Hash-derived identifiers are injective constructors with disjoint ranges.
 */
module Portfolio {
  import opened Common

  datatype Error =
    | InvalidCurrency
    | CurrencyMismatch
    | NegativeAmount
    | PositionIdMismatch
    | IdentityMismatch
    | FlatWithAverage
    | OpenWithoutAverage
    | StaleEvent
    | SchemaRejected
    | ProjectionMismatch
    | ConflictingPayload
    | MissingSourceEvent
    | StatusNotAllowed
    | MissingSettlementField
    | FlatPosition
    | NotACorrectionOf
    | NotFlat
    | NoCashLine
    | EmptyReference
    | ReservedChanged
    | ZeroCorrection
    | InvalidTransferId
    | SameBalance
    | NonpositiveTransfer
    | AccountCodeTooLong
    | DuplicateJournal
    | InvalidPeriod
    | OutsidePeriod

  predicate ValidCurrency(c: string) {
    |c| == 3 && forall i :: 0 <= i < 3 ==> 'A' <= c[i] <= 'Z'
  }

  datatype Money = Money(amount: real, currency: string)

  datatype Identity = Identity(exchange: string, accountId: string, marketId: string,
                               contractId: string, outcomeId: string)

  datatype PositionId = DerivedPosition(identity: Identity) | NamedPosition(name: string)

  // ----- fills

  /** `details` stands for the fill fields that portfolio accounting carries but never reads. */
  datatype RawFill = Fill(
    fillId: string, identity: Identity, side: Side, price: real, quantity: real,
    fee: Option<Money>, rebate: Option<Money>,
    exchangeOccurredAt: Time, receivedAt: Time, details: string)

  predicate ValidFill(f: RawFill) {
    f.price >= 0.0 && f.quantity > 0.0
  }

  type Fill = f: RawFill | ValidFill(f)
    witness RawFill.Fill("", Identity("", "", "", "", ""), Buy, 0.0, 1.0, None, None, 0, 0, "")

  // ----- positions

  datatype RawPosition = Position(
    positionId: PositionId, identity: Identity,
    quantity: real, averageEntryPrice: Option<real>,
    realizedPnl: Money, unrealizedPnl: Money, feesPaid: Money, rebatesReceived: Money,
    openedAt: Option<Time>, lastUpdatedAt: Time, aggregateVersion: int)

  predicate ValidPosition(p: RawPosition) {
    && (p.averageEntryPrice.Some? ==> p.averageEntryPrice.value >= 0.0)
    && p.aggregateVersion >= 0
    && (p.openedAt.Some? ==> p.openedAt.value <= p.lastUpdatedAt)
    && p.feesPaid.amount >= 0.0
    && p.rebatesReceived.amount >= 0.0
  }

  type Position = p: RawPosition | ValidPosition(p)
    witness RawPosition.Position(NamedPosition(""), Identity("", "", "", "", ""), 0.0, None,
      Money(0.0, "USD"), Money(0.0, "USD"), Money(0.0, "USD"), Money(0.0, "USD"), None, 0, 0)

  function MakePosition(p: RawPosition): Result<Position, Error> {
    if ValidPosition(p) then Ok(p) else Err(SchemaRejected)
  }

  /** Every money field of the position is in one currency. */
  predicate InCurrency(p: Position, currency: string) {
    && p.realizedPnl.currency == currency
    && p.unrealizedPnl.currency == currency
    && p.feesPaid.currency == currency
    && p.rebatesReceived.currency == currency
  }

  // ----- journals

  datatype AccountCode =
    | Cash
    | PositionCost
    | RealizedTradingPnl
    | SettlementPnl
    | FeesPaid
    | RebatesReceived
    | BalanceCorrection
    | CashTransfer
    | CashOf(balanceId: string)
    | OtherAccount(code: string)

  datatype JournalId =
    | FillJournal(fillId: string)
    | SettlementJournal(positionId: PositionId, settlementId: string)
    | SettlementCorrectionJournal(originalPositionId: PositionId, previousId: string, correctedId: string)
    | BalanceCorrectionJournal(balanceId: string, available: real, capturedAt: Time, total: real, referenceId: string)
    | TransferJournal(transferId: string)
    | OtherJournal(id: string)

  datatype JournalLine = Line(account: AccountCode, amount: real, currency: string)

  datatype RawJournal = Journal(
    id: JournalId, occurredAt: Time, sourceEventId: string, lines: seq<JournalLine>, createdAt: Time)

  /** The amount of a line, if it is in the currency and booked to the account (to any account for `None`). */
  function Amount(line: JournalLine, account: Option<AccountCode>, currency: string): real {
    if line.currency == currency && (account.None? || account.value == line.account) then line.amount else 0.0
  }

  function Total(lines: seq<JournalLine>, account: Option<AccountCode>, currency: string): real {
    if lines == [] then 0.0 else Amount(lines[0], account, currency) + Total(lines[1..], account, currency)
  }

  function AccountTotal(lines: seq<JournalLine>, account: AccountCode, currency: string): real {
    Total(lines, Some(account), currency)
  }

  function CurrencyTotal(lines: seq<JournalLine>, currency: string): real {
    Total(lines, None, currency)
  }

  predicate Balanced(lines: seq<JournalLine>) {
    forall i :: 0 <= i < |lines| ==> CurrencyTotal(lines, lines[i].currency) == 0.0
  }

  predicate ValidJournal(j: RawJournal) {
    j.lines != [] && j.occurredAt <= j.createdAt && Balanced(j.lines)
  }

  type Journal = j: RawJournal | ValidJournal(j)
    witness RawJournal.Journal(OtherJournal(""), 0, "", [Line(Cash, 0.0, "USD")], 0)

  function MakeJournal(j: RawJournal): Result<Journal, Error> {
    if ValidJournal(j) then Ok(j) else Err(SchemaRejected)
  }

  lemma {:induction false} TotalConcat(a: seq<JournalLine>, b: seq<JournalLine>, account: Option<AccountCode>, currency: string)
    ensures Total(a + b, account, currency) == Total(a, account, currency) + Total(b, account, currency)
  {
    if a == [] {
      assert a + b == b;
    } else {
      TotalConcat(a[1..], b, account, currency);
      assert (a + b)[1..] == a[1..] + b;
    }
  }

  /** One more line counts if it is in the currency and booked to the account, and not otherwise. */
  lemma {:induction false} TotalSnoc(lines: seq<JournalLine>, l: JournalLine, account: AccountCode, currency: string)
    ensures AccountTotal(lines + [l], account, currency) - AccountTotal(lines, account, currency)
         == (if l.account == account && l.currency == currency then l.amount else 0.0)
    ensures CurrencyTotal(lines + [l], currency) - CurrencyTotal(lines, currency)
         == (if l.currency == currency then l.amount else 0.0)
    ensures AccountTotal([], account, currency) == 0.0 == CurrencyTotal([], currency)
  {
    TotalConcat(lines, [l], Some(account), currency);
    TotalConcat(lines, [l], None, currency);
    TotalOfOne(l, Some(account), currency);
    TotalOfOne(l, None, currency);
  }

  lemma TotalOfOne(a: JournalLine, account: Option<AccountCode>, currency: string)
    ensures Total([a], account, currency) == Amount(a, account, currency)
  {
    assert [a][1..] == [];
  }

  lemma TotalOfTwo(a: JournalLine, b: JournalLine, account: Option<AccountCode>, currency: string)
    ensures Total([a, b], account, currency) == Amount(a, account, currency) + Amount(b, account, currency)
  {
    TotalOfOne(a, account, currency);
    TotalOfOne(b, account, currency);
    TotalConcat([a], [b], account, currency);
    assert [a] + [b] == [a, b];
  }

  lemma TotalOfThree(a: JournalLine, b: JournalLine, c: JournalLine, account: Option<AccountCode>, currency: string)
    ensures Total([a, b, c], account, currency)
         == Amount(a, account, currency) + Amount(b, account, currency) + Amount(c, account, currency)
  {
    TotalOfTwo(a, b, account, currency);
    TotalOfOne(c, account, currency);
    TotalConcat([a, b], [c], account, currency);
    assert [a, b] + [c] == [a, b, c];
  }

  /** `_sum_account`: the total booked to one account over a list of journals. */
  function SumAccount(journals: seq<Journal>, account: AccountCode, currency: string): real {
    if journals == [] then 0.0
    else SumAccount(journals[..|journals| - 1], account, currency)
         + AccountTotal(journals[|journals| - 1].lines, account, currency)
  }

  lemma SumAccountSnoc(journals: seq<Journal>, j: Journal, account: AccountCode, currency: string)
    ensures SumAccount(journals + [j], account, currency)
         == SumAccount(journals, account, currency) + AccountTotal(j.lines, account, currency)
  {
    assert (journals + [j])[..|journals|] == journals;
  }

  // ----- cash balances

  datatype RawBalance = Balance(
    balanceId: string, exchange: string, accountId: string, currency: string,
    available: real, reserved: real, total: real, capturedAt: Time)

  predicate ValidBalance(b: RawBalance) {
    b.reserved >= 0.0 && b.available + b.reserved == b.total && ValidCurrency(b.currency)
  }

  type CashBalance = b: RawBalance | ValidBalance(b)
    witness RawBalance.Balance("", "", "", "USD", 0.0, 0.0, 0.0, 0)

  function MakeBalance(b: RawBalance): Result<CashBalance, Error> {
    if ValidBalance(b) then Ok(b) else Err(SchemaRejected)
  }

  // ----- settlements

  datatype SettlementStatus = Unresolved | PendingResolution | Resolved | Disputed | Finalized | Settled | Corrected

  /** `winning` holds the winning outcome ids. Fields that accounting never reads are left out. */
  datatype RawSettlement = Settlement(
    settlementId: string, marketId: string, exchange: string, status: SettlementStatus,
    winning: seq<string>, settledAt: Option<Time>, payoutPerUnit: Option<real>,
    correctionOf: Option<string>)

  predicate ValidSettlement(s: RawSettlement) {
    && (s.payoutPerUnit.Some? ==> s.payoutPerUnit.value >= 0.0)
    && (s.status in {Unresolved, PendingResolution} ==>
          s.winning == [] && s.settledAt.None? && s.payoutPerUnit.None? && s.correctionOf.None?)
    && (s.status !in {Unresolved, PendingResolution} ==> s.winning != [] && s.payoutPerUnit.Some?)
    && (s.status in {Resolved, Disputed, Finalized} ==> s.settledAt.None?)
    && (s.status == Settled ==> s.settledAt.Some?)
    && (s.status == Corrected ==> s.correctionOf.Some?)
  }

  type Settlement = s: RawSettlement | ValidSettlement(s)
    witness RawSettlement.Settlement("", "", "", Unresolved, [], None, None, None)
}
