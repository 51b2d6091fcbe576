/** Cash balances as a projection of journals: postings, observed corrections and transfers. */
module Balances {
  import opened Common
  import opened Portfolio

  datatype CashProjection = CashProjection(balance: CashBalance, cashDelta: real)

  predicate HasLine(lines: seq<JournalLine>, account: AccountCode, currency: string) {
    exists i :: 0 <= i < |lines| && lines[i].account == account && lines[i].currency == currency
  }

  function ApplyJournal(balance: CashBalance, journal: Journal, account: AccountCode): Result<CashProjection, Error> {
    if journal.occurredAt < balance.capturedAt then Err(StaleEvent)
    else if !HasLine(journal.lines, account, balance.currency) then Err(NoCashLine)
    else
      var delta := AccountTotal(journal.lines, account, balance.currency);
      var b :- MakeBalance(RawBalance.Balance(
        balance.balanceId, balance.exchange, balance.accountId, balance.currency,
        balance.available + delta, balance.reserved, balance.total + delta, journal.occurredAt));
      Ok(CashProjection(b, delta))
  }

  /** The balance validators never reject a projection. */
  lemma JournalApplies(balance: CashBalance, journal: Journal, account: AccountCode)
    ensures var r := ApplyJournal(balance, journal, account);
            && (r.Ok? <==> balance.capturedAt <= journal.occurredAt && HasLine(journal.lines, account, balance.currency))
            && (r.Ok? ==>
                  && r.value.cashDelta == AccountTotal(journal.lines, account, balance.currency)
                  && r.value.balance.total == balance.total + r.value.cashDelta
                  && r.value.balance == balance.(available := balance.available + r.value.cashDelta,
                                                 total := r.value.balance.total, capturedAt := journal.occurredAt))
  {
  }

  datatype CashApplication = CashApplication(
    balance: CashBalance, projection: Option<CashProjection>, journal: Option<Journal>, appliedIds: set<JournalId>, applied: bool)

  function ApplyJournalOnce(balance: CashBalance, journal: Journal, appliedIds: set<JournalId>): Result<CashApplication, Error> {
    if journal.id in appliedIds then Ok(CashApplication(balance, None, None, appliedIds, false))
    else
      var p :- ApplyJournal(balance, journal, Cash);
      Ok(CashApplication(p.balance, Some(p), Some(journal), appliedIds + {journal.id}, true))
  }

  // ----- corrections to an observed balance

  function CheckCorrectionIdentity(balance: CashBalance, observed: CashBalance, referenceId: string): Result<(), Error> {
    if referenceId == "" then Err(EmptyReference)
    else if observed.balanceId != balance.balanceId || observed.exchange != balance.exchange
            || observed.accountId != balance.accountId then Err(IdentityMismatch)
    else if observed.currency != balance.currency then Err(CurrencyMismatch)
    else Ok(())
  }

  function CorrectionId(balance: CashBalance, observed: CashBalance, referenceId: string): JournalId {
    BalanceCorrectionJournal(balance.balanceId, observed.available, observed.capturedAt, observed.total, referenceId)
  }

  function CorrectionJournal(balance: CashBalance, observed: CashBalance, referenceId: string, sourceEventId: string, createdAt: Time)
    : Result<Journal, Error>
  {
    var _ :- CheckCorrectionIdentity(balance, observed, referenceId);
    if observed.capturedAt < balance.capturedAt then Err(StaleEvent)
    else if observed.reserved != balance.reserved then Err(ReservedChanged)
    else
      var delta := observed.available - balance.available;
      if delta == 0.0 then Err(ZeroCorrection)
      else MakeJournal(RawJournal.Journal(
        CorrectionId(balance, observed, referenceId), observed.capturedAt, sourceEventId,
        [Line(Cash, delta, balance.currency), Line(BalanceCorrection, -delta, balance.currency)], createdAt))
  }

  function ApplyCorrectionOnce(balance: CashBalance, observed: CashBalance, appliedIds: set<JournalId>,
                               referenceId: string, sourceEventId: string, createdAt: Time): Result<CashApplication, Error>
  {
    var _ :- CheckCorrectionIdentity(balance, observed, referenceId);
    var id := CorrectionId(balance, observed, referenceId);
    if id in appliedIds then Ok(CashApplication(balance, None, None, appliedIds, false))
    else
      var j :- CorrectionJournal(balance, observed, referenceId, sourceEventId, createdAt);
      var p :- ApplyJournal(balance, j, Cash);
      Ok(CashApplication(p.balance, Some(p), Some(j), appliedIds + {id}, true))
  }

  /** Two corrections have one id exactly when they observe the same of the same balance under the same reference. */
  lemma CorrectionIdsAgreeIff(x: CashBalance, o: CashBalance, r: string, y: CashBalance, p: CashBalance, q: string)
    ensures CorrectionId(x, o, r) == CorrectionId(y, p, q) <==>
              x.balanceId == y.balanceId && o.available == p.available && o.capturedAt == p.capturedAt && o.total == p.total && r == q
  {
  }

  /** A correction that takes effect leaves exactly the observed balance, every field of it. */
  lemma CorrectionReachesObservation(balance: CashBalance, observed: CashBalance, appliedIds: set<JournalId>,
                                     referenceId: string, sourceEventId: string, createdAt: Time)
    requires CorrectionId(balance, observed, referenceId) !in appliedIds
    ensures var r := ApplyCorrectionOnce(balance, observed, appliedIds, referenceId, sourceEventId, createdAt);
            && (r.Ok? <==>
                  && referenceId != ""
                  && observed.balanceId == balance.balanceId && observed.exchange == balance.exchange
                  && observed.accountId == balance.accountId && observed.currency == balance.currency
                  && balance.capturedAt <= observed.capturedAt <= createdAt
                  && observed.reserved == balance.reserved
                  && observed.available != balance.available)
            && (r.Ok? ==> r.value.balance == observed && r.value.applied
                          && r.value.projection.Some?
                          && r.value.projection.value.cashDelta == observed.available - balance.available
                          && r.value.appliedIds == appliedIds + {CorrectionId(balance, observed, referenceId)}
                          && r.value.journal.Some?
                          && var j := r.value.journal.value;
                             j.id == CorrectionId(balance, observed, referenceId)
                             && j.lines == [Line(Cash, observed.available - balance.available, balance.currency),
                                            Line(BalanceCorrection, balance.available - observed.available, balance.currency)]
                             && j.occurredAt == observed.capturedAt && j.createdAt == createdAt && j.sourceEventId == sourceEventId)
  {
    var delta := observed.available - balance.available;
    var a, b := Line(Cash, delta, balance.currency), Line(BalanceCorrection, -delta, balance.currency);
    TotalOfTwo(a, b, Some(Cash), balance.currency);
    TotalOfTwo(a, b, None, balance.currency);
    assert [a, b][0].account == Cash;
  }

  // ----- transfers

  datatype TransferApplication = TransferApplication(
    source: CashBalance, target: CashBalance, journal: Option<Journal>, appliedIds: set<JournalId>, applied: bool)

  const MAX_ACCOUNT_CODE_LENGTH: nat := 128

  /** The account code is `cash:` followed by the balance id. */
  predicate CodeFits(balance: CashBalance) {
    5 + |balance.balanceId| <= MAX_ACCOUNT_CODE_LENGTH
  }

  function CheckTransfer(source: CashBalance, target: CashBalance, amount: Money, transferId: string): Result<(), Error> {
    if !Trimmed(transferId) then Err(InvalidTransferId)
    else if source.balanceId == target.balanceId then Err(SameBalance)
    else if source.currency != target.currency then Err(CurrencyMismatch)
    else if !ValidCurrency(amount.currency) then Err(InvalidCurrency)
    else if source.currency != amount.currency then Err(CurrencyMismatch)
    else if amount.amount <= 0.0 then Err(NonpositiveTransfer)
    else if !CodeFits(source) || !CodeFits(target) then Err(AccountCodeTooLong)
    else Ok(())
  }

  function TransferLines(source: CashBalance, target: CashBalance, amount: Money): seq<JournalLine> {
    [Line(CashOf(source.balanceId), -amount.amount, amount.currency), Line(CashTransfer, amount.amount, amount.currency)]
    + [Line(CashOf(target.balanceId), amount.amount, amount.currency), Line(CashTransfer, -amount.amount, amount.currency)]
  }

  function ApplyTransferOnce(source: CashBalance, target: CashBalance, amount: Money, transferId: string,
                             appliedIds: set<JournalId>, sourceEventId: string, occurredAt: Time, createdAt: Time)
    : Result<TransferApplication, Error>
  {
    var _ :- CheckTransfer(source, target, amount, transferId);
    var id := TransferJournal(transferId);
    if id in appliedIds then Ok(TransferApplication(source, target, None, appliedIds, false))
    else
      var j :- MakeJournal(RawJournal.Journal(id, occurredAt, sourceEventId, TransferLines(source, target, amount), createdAt));
      var outbound :- ApplyJournal(source, j, CashOf(source.balanceId));
      var inbound :- ApplyJournal(target, j, CashOf(target.balanceId));
      Ok(TransferApplication(outbound.balance, inbound.balance, Some(j), appliedIds + {id}, true))
  }

  lemma TransferLinesTotal(source: CashBalance, target: CashBalance, amount: Money)
    requires source.balanceId != target.balanceId
    ensures var lines := TransferLines(source, target, amount);
            && Balanced(lines)
            && AccountTotal(lines, CashOf(source.balanceId), amount.currency) == -amount.amount
            && AccountTotal(lines, CashOf(target.balanceId), amount.currency) == amount.amount
            && HasLine(lines, CashOf(source.balanceId), amount.currency)
            && HasLine(lines, CashOf(target.balanceId), amount.currency)
  {
    var lines := TransferLines(source, target, amount);
    var c := amount.currency;
    assert lines[0].account == CashOf(source.balanceId) && lines[2].account == CashOf(target.balanceId);
    TransferTotal(source, target, amount, None);
    TransferTotal(source, target, amount, Some(CashOf(source.balanceId)));
    TransferTotal(source, target, amount, Some(CashOf(target.balanceId)));
  }

  lemma TransferTotal(source: CashBalance, target: CashBalance, amount: Money, account: Option<AccountCode>)
    ensures var lines := TransferLines(source, target, amount);
            var c := amount.currency;
            Total(lines, account, c) == Amount(lines[0], account, c) + Amount(lines[1], account, c)
                                        + Amount(lines[2], account, c) + Amount(lines[3], account, c)
  {
    var lines := TransferLines(source, target, amount);
    TotalOfTwo(lines[0], lines[1], account, amount.currency);
    TotalOfTwo(lines[2], lines[3], account, amount.currency);
    TotalConcat([lines[0], lines[1]], [lines[2], lines[3]], account, amount.currency);
  }

  /** A transfer that takes effect moves exactly its amount from one total to the other. */
  lemma TransferMoves(source: CashBalance, target: CashBalance, amount: Money, transferId: string,
                      appliedIds: set<JournalId>, sourceEventId: string, occurredAt: Time, createdAt: Time)
    requires TransferJournal(transferId) !in appliedIds
    ensures var r := ApplyTransferOnce(source, target, amount, transferId, appliedIds, sourceEventId, occurredAt, createdAt);
            && (r.Ok? <==>
                  && transferId != "" && transferId[0] !in {' ', '\t', '\n', '\r'} && transferId[|transferId| - 1] !in {' ', '\t', '\n', '\r'}
                  && source.balanceId != target.balanceId
                  && source.currency == target.currency == amount.currency && amount.amount > 0.0
                  && |source.balanceId| <= 123 && |target.balanceId| <= 123
                  && source.capturedAt <= occurredAt && target.capturedAt <= occurredAt <= createdAt)
            && (r.Ok? ==>
                  && r.value.source == source.(available := source.available - amount.amount,
                                               total := source.total - amount.amount, capturedAt := occurredAt)
                  && r.value.target == target.(available := target.available + amount.amount,
                                               total := target.total + amount.amount, capturedAt := occurredAt)
                  && r.value.applied && r.value.appliedIds == appliedIds + {TransferJournal(transferId)}
                  && r.value.journal.Some?
                  && var j := r.value.journal.value;
                     j.id == TransferJournal(transferId) && j.lines == TransferLines(source, target, amount)
                     && j.occurredAt == occurredAt && j.createdAt == createdAt && j.sourceEventId == sourceEventId)
  {
    hide TransferLines;
    if CheckTransfer(source, target, amount, transferId).Ok? {
      TransferLinesTotal(source, target, amount);
      assert TransferLines(source, target, amount) != [];
    }
  }

  // ----- once

  /**
   The once-forms, journal by journal: a known id is reported as a duplicate and changes nothing, after the checks that
   come before the lookup; an unknown one is recorded with the journal.
   */
  lemma {:induction false} KnownIdsChangeNothing(balance: CashBalance, journal: Journal, observed: CashBalance, source: CashBalance, target: CashBalance,
                                                 amount: Money, appliedIds: set<JournalId>, referenceId: string, transferId: string,
                                                 sourceEventId: string, occurredAt: Time, createdAt: Time)
    ensures journal.id in appliedIds ==>
              ApplyJournalOnce(balance, journal, appliedIds) == Ok(CashApplication(balance, None, None, appliedIds, false))
    ensures CorrectionId(balance, observed, referenceId) in appliedIds ==>
              var r := ApplyCorrectionOnce(balance, observed, appliedIds, referenceId, sourceEventId, createdAt);
              && (r.Ok? <==> referenceId != "" && observed.balanceId == balance.balanceId && observed.exchange == balance.exchange
                             && observed.accountId == balance.accountId && observed.currency == balance.currency)
              && (r.Ok? ==> r.value == CashApplication(balance, None, None, appliedIds, false))
    ensures TransferJournal(transferId) in appliedIds ==>
              var r := ApplyTransferOnce(source, target, amount, transferId, appliedIds, sourceEventId, occurredAt, createdAt);
              && (r.Ok? <==> CheckTransfer(source, target, amount, transferId).Ok?)
              && (r.Ok? ==> r.value == TransferApplication(source, target, None, appliedIds, false))
  {
  }

  /** A new journal is applied to the cash account and recorded, or refused for the reasons that any posting is. */
  lemma {:induction false} NewJournalIsRecorded(balance: CashBalance, journal: Journal, appliedIds: set<JournalId>)
    requires journal.id !in appliedIds
    ensures var r := ApplyJournalOnce(balance, journal, appliedIds);
            && (r.Ok? <==> balance.capturedAt <= journal.occurredAt
                           && exists i :: 0 <= i < |journal.lines| && journal.lines[i].account == Cash && journal.lines[i].currency == balance.currency)
            && (r.Ok? ==>
                  var delta := AccountTotal(journal.lines, Cash, balance.currency);
                  && r.value.balance == balance.(available := balance.available + delta, total := balance.total + delta,
                                                 capturedAt := journal.occurredAt)
                  && r.value.projection == Some(CashProjection(r.value.balance, delta))
                  && r.value.journal == Some(journal) && r.value.applied
                  && r.value.appliedIds == appliedIds + {journal.id})
  {
    JournalApplies(balance, journal, Cash);
  }
}
