/** Whole runs of postings, corrections and transfers over many balances that share one set of applied ids. */
module BalanceRuns {
  import opened Common
  import opened Portfolio
  import opened Balances

  /** One journal that took effect, with the cash it brought in from outside the balances. */
  datatype Effect = Effect(id: JournalId, currency: string, inflow: real)

  datatype Book = Book(balances: seq<CashBalance>, appliedIds: set<JournalId>, effects: seq<Effect>)

  datatype Operation =
    | Post(i: nat, journal: Journal)
    | Correct(i: nat, observed: CashBalance, referenceId: string, sourceEventId: string, createdAt: Time)
    | Transfer(from: nat, to: nat, amount: Money, transferId: string, sourceEventId: string, occurredAt: Time, createdAt: Time)

  function AfterCash(b: Book, i: nat, r: Result<CashApplication, Error>): Book
    requires i < |b.balances|
  {
    if r.Ok? && r.value.applied && r.value.projection.Some? && r.value.journal.Some? then
      Book(b.balances[i := r.value.balance], r.value.appliedIds,
           b.effects + [Effect(r.value.journal.value.id, b.balances[i].currency, r.value.projection.value.cashDelta)])
    else b
  }

  /** One operation. An error raises and leaves everything as it was; so does an index with no balance. */
  function Apply(b: Book, op: Operation): Book {
    match op
    case Post(i, journal) =>
      if i >= |b.balances| then b else AfterCash(b, i, ApplyJournalOnce(b.balances[i], journal, b.appliedIds))
    case Correct(i, observed, referenceId, sourceEventId, createdAt) =>
      if i >= |b.balances| then b
      else AfterCash(b, i, ApplyCorrectionOnce(b.balances[i], observed, b.appliedIds, referenceId, sourceEventId, createdAt))
    case Transfer(from, to, amount, transferId, sourceEventId, occurredAt, createdAt) =>
      if from >= |b.balances| || to >= |b.balances| then b
      else
        var r := ApplyTransferOnce(b.balances[from], b.balances[to], amount, transferId, b.appliedIds,
                                   sourceEventId, occurredAt, createdAt);
        if r.Ok? && r.value.applied then
          Book(b.balances[from := r.value.source][to := r.value.target], r.value.appliedIds,
               b.effects + [Effect(TransferJournal(transferId), amount.currency, 0.0)])
        else b
  }

  function Run(b: Book, ops: seq<Operation>): Book {
    if ops == [] then b else Apply(Run(b, ops[..|ops| - 1]), ops[|ops| - 1])
  }

  // ----- sums

  function Share(b: CashBalance, currency: string): real {
    if b.currency == currency then b.total else 0.0
  }

  /** The cash held in one currency over all balances. */
  function Held(balances: seq<CashBalance>, currency: string): real {
    if balances == [] then 0.0 else Share(balances[0], currency) + Held(balances[1..], currency)
  }

  function Inflow(effects: seq<Effect>, currency: string): real {
    if effects == [] then 0.0
    else
      var last := effects[|effects| - 1];
      Inflow(effects[..|effects| - 1], currency) + (if last.currency == currency then last.inflow else 0.0)
  }

  lemma {:induction false} HeldUpdate(balances: seq<CashBalance>, i: nat, b: CashBalance, currency: string)
    requires i < |balances|
    ensures Held(balances[i := b], currency) == Held(balances, currency) - Share(balances[i], currency) + Share(b, currency)
  {
    if i > 0 {
      HeldUpdate(balances[1..], i - 1, b, currency);
      assert balances[i := b][1..] == balances[1..][i - 1 := b];
    } else {
      assert balances[0 := b][1..] == balances[1..];
    }
  }

  lemma InflowSnoc(effects: seq<Effect>, e: Effect, currency: string)
    ensures Inflow(effects + [e], currency) == Inflow(effects, currency) + (if e.currency == currency then e.inflow else 0.0)
  {
    assert (effects + [e])[..|effects|] == effects;
  }

  // ----- what every step keeps

  /** Same balance, same reserve, and the balance identity. */
  predicate Kept(before: CashBalance, after: CashBalance) {
    && after.available + after.reserved == after.total
    && after.reserved == before.reserved
    && after.balanceId == before.balanceId && after.currency == before.currency
    && before.capturedAt <= after.capturedAt
  }

  predicate AllKept(before: seq<CashBalance>, after: seq<CashBalance>) {
    |before| == |after| && forall i :: 0 <= i < |before| ==> Kept(before[i], after[i])
  }

  /** Either nothing changed, or one journal with a new id took effect. */
  ghost predicate TakesEffectOnce(b: Book, c: Book) {
    || c == b
    || (exists e: Effect ::
          && c.effects == b.effects + [e]
          && e.id !in b.appliedIds && c.appliedIds == b.appliedIds + {e.id}
          && AllKept(b.balances, c.balances)
          && (forall currency :: Held(c.balances, currency)
                              == Held(b.balances, currency) + if e.currency == currency then e.inflow else 0.0))
  }

  lemma UpdateTakesEffect(b: Book, i: nat, after: CashBalance, e: Effect)
    requires i < |b.balances| && Kept(b.balances[i], after)
    requires e.id !in b.appliedIds && e.currency == after.currency && e.inflow == after.total - b.balances[i].total
    ensures TakesEffectOnce(b, Book(b.balances[i := after], b.appliedIds + {e.id}, b.effects + [e]))
  {
    var c := Book(b.balances[i := after], b.appliedIds + {e.id}, b.effects + [e]);
    forall currency
      ensures Held(c.balances, currency) == Held(b.balances, currency) + if e.currency == currency then e.inflow else 0.0
    {
      HeldUpdate(b.balances, i, after, currency);
    }
  }

  lemma TransferTakesEffect(b: Book, op: Operation)
    requires op.Transfer?
    ensures TakesEffectOnce(b, Apply(b, op))
    ensures forall currency :: Held(Apply(b, op).balances, currency) == Held(b.balances, currency)
  {
    var c := Apply(b, op);
    if c != b {
      hide ApplyTransferOnce;
      var x, y := b.balances[op.from], b.balances[op.to];
      TransferMoves(x, y, op.amount, op.transferId, b.appliedIds, op.sourceEventId, op.occurredAt, op.createdAt);
      var e := Effect(TransferJournal(op.transferId), op.amount.currency, 0.0);
      forall currency
        ensures Held(c.balances, currency) == Held(b.balances, currency) + if e.currency == currency then e.inflow else 0.0
      {
        HeldUpdate(b.balances, op.from, c.balances[op.from], currency);
        HeldUpdate(b.balances[op.from := c.balances[op.from]], op.to, c.balances[op.to], currency);
      }
      assert c.effects == b.effects + [e];
    }
  }

  /** Every operation takes effect at most once, and says what it brought in. */
  lemma EveryStepTakesEffectOnce(b: Book, op: Operation)
    ensures TakesEffectOnce(b, Apply(b, op))
  {
    match op
    case Transfer(_, _, _, _, _, _, _) =>
      TransferTakesEffect(b, op);
    case Post(i, journal) =>
      if Apply(b, op) != b {
        JournalApplies(b.balances[i], journal, Cash);
        var r := ApplyJournalOnce(b.balances[i], journal, b.appliedIds).value;
        UpdateTakesEffect(b, i, r.balance, Effect(journal.id, b.balances[i].currency, r.projection.value.cashDelta));
      }
    case Correct(i, observed, referenceId, sourceEventId, createdAt) =>
      if Apply(b, op) != b {
        CorrectionReachesObservation(b.balances[i], observed, b.appliedIds, referenceId, sourceEventId, createdAt);
        var r := ApplyCorrectionOnce(b.balances[i], observed, b.appliedIds, referenceId, sourceEventId, createdAt).value;
        UpdateTakesEffect(b, i, r.balance, Effect(r.journal.value.id, b.balances[i].currency, r.projection.value.cashDelta));
      }
  }

  /** Exactly when an operation takes effect, rather than being refused or recognised as done. */
  lemma {:induction false} TakesEffectIff(b: Book, op: Operation)
    ensures Apply(b, op) != b <==>
              match op
              case Post(i, journal) =>
                && i < |b.balances| && journal.id !in b.appliedIds
                && b.balances[i].capturedAt <= journal.occurredAt
                && exists k :: 0 <= k < |journal.lines| && journal.lines[k].account == Cash && journal.lines[k].currency == b.balances[i].currency
              case Correct(i, observed, referenceId, _, createdAt) =>
                && i < |b.balances| && CorrectionId(b.balances[i], observed, referenceId) !in b.appliedIds
                && referenceId != ""
                && observed.balanceId == b.balances[i].balanceId && observed.exchange == b.balances[i].exchange
                && observed.accountId == b.balances[i].accountId && observed.currency == b.balances[i].currency
                && b.balances[i].capturedAt <= observed.capturedAt <= createdAt
                && observed.reserved == b.balances[i].reserved && observed.available != b.balances[i].available
              case Transfer(from, to, amount, transferId, _, occurredAt, createdAt) =>
                && from < |b.balances| && to < |b.balances| && TransferJournal(transferId) !in b.appliedIds
                && transferId != "" && transferId[0] !in {' ', '\t', '\n', '\r'} && transferId[|transferId| - 1] !in {' ', '\t', '\n', '\r'}
                && b.balances[from].balanceId != b.balances[to].balanceId
                && b.balances[from].currency == b.balances[to].currency == amount.currency && amount.amount > 0.0
                && |b.balances[from].balanceId| <= 123 && |b.balances[to].balanceId| <= 123
                && b.balances[from].capturedAt <= occurredAt && b.balances[to].capturedAt <= occurredAt <= createdAt
  {
    match op
    case Post(i, journal) =>
      if i < |b.balances| {
        JournalApplies(b.balances[i], journal, Cash);
      }
    case Correct(i, observed, referenceId, sourceEventId, createdAt) =>
      if i < |b.balances| {
        CorrectionEffect(b, i, observed, referenceId, sourceEventId, createdAt);
      }
    case Transfer(from, to, amount, transferId, sourceEventId, occurredAt, createdAt) =>
      if from < |b.balances| && to < |b.balances| {
        TransferEffect(b, op);
      }
  }

  lemma {:induction false} CorrectionEffect(b: Book, i: nat, observed: CashBalance, referenceId: string, sourceEventId: string, createdAt: Time)
    requires i < |b.balances|
    ensures var x := b.balances[i];
            var r := ApplyCorrectionOnce(x, observed, b.appliedIds, referenceId, sourceEventId, createdAt);
            Apply(b, Correct(i, observed, referenceId, sourceEventId, createdAt)) != b <==>
              r.Ok? && CorrectionId(x, observed, referenceId) !in b.appliedIds
    ensures var x := b.balances[i];
            CorrectionId(x, observed, referenceId) !in b.appliedIds ==>
              (ApplyCorrectionOnce(x, observed, b.appliedIds, referenceId, sourceEventId, createdAt).Ok? <==>
                 && referenceId != ""
                 && observed.balanceId == x.balanceId && observed.exchange == x.exchange
                 && observed.accountId == x.accountId && observed.currency == x.currency
                 && x.capturedAt <= observed.capturedAt <= createdAt
                 && observed.reserved == x.reserved && observed.available != x.available)
  {
    if CorrectionId(b.balances[i], observed, referenceId) !in b.appliedIds {
      CorrectionReachesObservation(b.balances[i], observed, b.appliedIds, referenceId, sourceEventId, createdAt);
    }
  }

  lemma {:induction false} TransferEffect(b: Book, op: Operation)
    requires op.Transfer? && op.from < |b.balances| && op.to < |b.balances|
    ensures var r := ApplyTransferOnce(b.balances[op.from], b.balances[op.to], op.amount, op.transferId, b.appliedIds,
                                       op.sourceEventId, op.occurredAt, op.createdAt);
            && (Apply(b, op) != b <==> r.Ok? && TransferJournal(op.transferId) !in b.appliedIds)
            && (TransferJournal(op.transferId) !in b.appliedIds ==>
                  (r.Ok? <==>
                     && op.transferId != ""
                     && op.transferId[0] !in {' ', '\t', '\n', '\r'} && op.transferId[|op.transferId| - 1] !in {' ', '\t', '\n', '\r'}
                     && b.balances[op.from].balanceId != b.balances[op.to].balanceId
                     && b.balances[op.from].currency == b.balances[op.to].currency == op.amount.currency && op.amount.amount > 0.0
                     && |b.balances[op.from].balanceId| <= 123 && |b.balances[op.to].balanceId| <= 123
                     && b.balances[op.from].capturedAt <= op.occurredAt && b.balances[op.to].capturedAt <= op.occurredAt <= op.createdAt))
  {
    if TransferJournal(op.transferId) !in b.appliedIds {
      TransferMoves(b.balances[op.from], b.balances[op.to], op.amount, op.transferId, b.appliedIds,
                    op.sourceEventId, op.occurredAt, op.createdAt);
    }
  }

  // ----- whole runs

  /** No id twice among the effects, and every one of them recorded as applied. */
  ghost predicate OncePerId(b: Book) {
    && (forall i {:trigger b.effects[i]} :: 0 <= i < |b.effects| ==> b.effects[i].id in b.appliedIds)
    && (forall i, j :: 0 <= i < j < |b.effects| ==> b.effects[i].id != b.effects[j].id)
  }

  /**
   Over any interleaving of postings, corrections and transfers: available plus reserved is total, reserved cash
   never changes, no journal id takes effect twice, and the cash held in each currency changes by exactly what
   the postings and corrections brought in. Transfers bring in nothing.
   */
  lemma {:induction false} RunConserves(b: Book, ops: seq<Operation>)
    requires b.effects == []
    ensures var c := Run(b, ops);
            && AllKept(b.balances, c.balances)
            && OncePerId(c)
            && b.appliedIds <= c.appliedIds
            && (forall i {:trigger c.effects[i]} :: 0 <= i < |c.effects| ==> c.effects[i].id !in b.appliedIds)
            && (forall currency :: Held(c.balances, currency) == Held(b.balances, currency) + Inflow(c.effects, currency))
  {
    if ops != [] {
      var earlier := ops[..|ops| - 1];
      RunConserves(b, earlier);
      var mid, c := Run(b, earlier), Run(b, ops);
      hide Apply;
      EveryStepTakesEffectOnce(mid, ops[|ops| - 1]);
      if c != mid {
        var e: Effect :| c.effects == mid.effects + [e]
          && e.id !in mid.appliedIds && c.appliedIds == mid.appliedIds + {e.id}
          && AllKept(mid.balances, c.balances)
          && (forall currency :: Held(c.balances, currency)
                              == Held(mid.balances, currency) + if e.currency == currency then e.inflow else 0.0);
        forall currency
          ensures Held(c.balances, currency) == Held(b.balances, currency) + Inflow(c.effects, currency)
        {
          InflowSnoc(mid.effects, e, currency);
        }
      }
    }
  }

  /** A run of transfers alone leaves the cash held in every currency unchanged. */
  lemma {:induction false} TransfersConserve(b: Book, ops: seq<Operation>, currency: string)
    requires forall i :: 0 <= i < |ops| ==> ops[i].Transfer?
    ensures Held(Run(b, ops).balances, currency) == Held(b.balances, currency)
  {
    hide Apply, TakesEffectOnce;
    if ops != [] {
      var earlier := ops[..|ops| - 1];
      TransfersConserve(b, earlier, currency);
      TransferTakesEffect(Run(b, earlier), ops[|ops| - 1]);
    }
  }
}
