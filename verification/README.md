# Verified model of the pmrp core

This project models five parts of pmrp, a research platform for prediction markets, and proves what each of them keeps over whole runs:

- the portfolio ledger: weighted-average positions, double-entry journals, cash balances, transfers, settlements, settlement corrections and PnL attribution;
- the idempotency protocol of the command dispatcher: concurrent dispatches against a bounded table ordered by recency;
- the in-process event bus and the replay engine that drives it from a sorted dataset;
- the order-book projection, the fill models that walk the book and the queue model beside them;
- the bounded decimal arithmetic of the fee table and the base32 suffix of event identifiers.

`dafny verify dfyconfig.toml` checks the whole project. Each module is in the file of the same name.

## How to read it

| part | modules |
|---|---|
| shared | `Common`, `Sequences`, `Sorting`, `Keys`, `Integers`, `Reals`, `Decimals` |
| ledger | `Portfolio` (entities and their validators), `Positions`, `PositionRuns`, `Journals`, `Projections`, `BatchOrder`, `Balances`, `BalanceRuns`, `Settlements`, `Corrections`, `Pnl`, `LedgerRuns`, `LedgerRounding`, `EntryRounding` |
| dispatcher | `Idempotency` (the hook, a class), `Dispatch` (the interleaved protocol and its invariant), `DispatchSafety`, `DispatchTheorems`, `DispatchReplies`, `DispatchAnswers`, `DispatchLiveness`, `DispatchRefinement` |
| bus and replay | `BusModel` (the state machine), `BusSafety`, `Bus` (the classes, proved to take the steps of the machine), `Replay`, `ReplayTheorems`, `ReplayCompletion`, `ReplayOrder` |
| book and fills | `MarketData`, `OrderBook`, `FillModels`, `QueueModels` |
| arithmetic | `FeeModels`, `Ulid` |

Code that only computes is a function with lemmas about it, among them some that write its results and its conditions out on the fields, without naming it or its parts. Code that updates variables or fields is a method or a class, proved against such a function.

### Modelling choices

- Ledger, book and fill amounts are exact reals. Python's default decimal context rounds to 28 digits, so the equality check at `src/pmrp/portfolio/journal.py:201-206` can reject a fill whose average was rounded at `src/pmrp/portfolio/positions.py:221-223`; in exact arithmetic it never does (`Journals.FillJournals`). `LedgerRounding` models that check with its rounding and has an input that is rejected; `EntryRounding` models the whole entry of a fill, and bounds the digits under which every check and the balance validator pass and the exact model is the code. The fee model rounds throughout.
- Times are integers. Identifiers derived by hashing are injective constructors with disjoint ranges (`JournalId`, `PositionId`). Account codes are a datatype; the 128-character limit on `cash:` plus a balance id is kept.
- `sorted` is a stable insertion sort on tuple keys; strings compare by code point. Stripping removes spaces, tabs, newlines and carriage returns.
- Exceptions are values. Error messages that only differ in their wording or in the offending field share a constructor. The backpressure error carries the set of full consumers.
- A schema model is a datatype with the validator as a subset type; code that builds one goes through a `Make...` function that can be rejected, and the lemmas prove that it is not.
- `LedgerRuns` applies each fill, settlement or correction by its `_once` operation and posts a fill's journal to the balance once. An event that raises leaves the ledger as it was. `BalanceRuns` does the same for many balances.
- The dispatcher is a set of tasks whose steps interleave freely: each lock body is one step, the handler runs between steps, and a task may be abandoned at any point. The log is a history of the run: who touched, evicted, started and recorded a key.
- The bus and its subscriptions carry ghost histories: every subscription ever made, what each consumed, and the log of publications. Waiting in `__anext__` is an explicit result.
- `Replay.Drive` lets other tasks take bus steps before each publication; the engine class takes none of those. No other task moves the clock during a run, although `sleep`, `advance` and `reset` exist.
- Class constructors require valid sizes; the static `Create` methods model the checks that raise.
- A fee decimal is a coefficient and an exponent. Every operation rounds half-even to 128 digits; signed zeros and the exponent limits of the context are not modelled.

### Properties that fail, and exactly when

- The last of several corrections of one settlement does not win: each is taken against the settlement itself. A last correction with a new id wins if and only if the ones before it cancel out, that is, their payouts less the settlement's sum to zero, where repeated ids do not count. A last correction that repeats an id changes nothing, and wins if and only if the series already pays what it says (`Corrections.LastCorrectionWinsIff`; `Corrections.SecondCorrectionOverpays` is an instance that fails).
- A correction does not check that its settlement took effect (`Corrections.CorrectionIgnoresWhetherSettled`). With the settlement unapplied it takes effect if and only if it is correctable, as stated by `Settlements.CorrectionApplies`, and moves cash if and only if the two payouts differ (`Corrections.CorrectionMovesCashIff`; `Corrections.UnappliedSettlementPays` is an instance).
- The idempotency hook on its own can outgrow `max_entries`: recording stays within the bound if and only if the key is present, there is room, or some entry is terminal (`Idempotency.RecordStaysBoundedIff`; `Idempotency.RecordOutgrows` is an instance that fails). Behind the dispatcher it always does (`DispatchTheorems.TableStaysBounded`).
- A key in progress can reach an outcome if and only if no owner of it was abandoned (`DispatchLiveness.ProgressIff`; `DispatchLiveness.OneCancellationBlocks` is a run that fails).
- A replay ignores the order of loading if and only if its inputs are rejected, its keys fail for one reason only, or its loop stops before it comes to different events with one key, or refuses each of those when it does (`ReplayOrder.LoadOrderIrrelevantIff`). So a run that can publish everything ignores it if and only if events that share a key are equal (`ReplayOrder.ReadyRunsForgetOrderIff`; `ReplayOrder.SharedKeyShowsLoadOrder` is an instance that fails), a closed bus or a passed clock always hides it (`ReplayOrder.BlockedRunsForgetOrder`), and a full queue need not, even one that stops the run at its first event (`ReplayOrder.FullQueueShowsLoadOrder`).
- A replay sticks on the clock if and only if the clock has passed the first event (`ReplayTheorems.ClockErrorIff`; `ReplayCompletion.PassedClockSticks`), publishes everything if and only if bus, clock and queues allow it (`ReplayCompletion.PublishesAllIff`), and after publishing everything still fails to return if and only if the manifest was created after the window starts (`ReplayCompletion.CompletesIff`; `ReplayCompletion.LateManifestLosesTheSession`).
- The queue model's crossing test and the touch model disagree if and only if the order crosses and every executable level is empty (`QueueModels.CrossesIffFills`; `QueueModels.EmptyLevelCrossesWithoutFilling` is an instance that fails).

## Model

| member | source | states |
|---|---|---|
| `Positions.FillAccounts` | src/pmrp/portfolio/positions.py:194-276 | In every branch (open, add, reduce, close, flip) the change in quantity times average is the signed opened notional plus closed cost, realized PnL is the signed gap between closed value and closed cost, closed plus opened is the fill, and an average exists iff the result is open |
| `Positions.FillProjects` | src/pmrp/portfolio/positions.py:56-175 | A fill is accepted iff currency, fee, rebate, identity, average and time checks pass, each written out on the fields, so the position validators never reject; the accepted fill's whole effect: closed quantity as the smaller of fill and opposite position, its cost at the average, ids, money and version |
| `Positions.TradeIdentity` | src/pmrp/portfolio/positions.py:200-276 | Realized PnL minus carried cost moves by minus the signed notional of the fill, in every branch |
| `Positions.MeanBetween` | src/pmrp/portfolio/positions.py:220-223 | The weighted average lies in every interval that holds both prices |
| `Positions.AverageNonnegative` | src/pmrp/portfolio/positions.py:194-276 | A nonnegative average stays nonnegative, and so does the closed cost basis, so the schema accepts both |
| `PositionRuns.AddMovesTowards` | src/pmrp/portfolio/positions.py:220-223 | An added fill moves the average towards its own price and not past it |
| `PositionRuns.FillGoesOn` | src/pmrp/portfolio/positions.py:338-363 | How average and opening time go on in one fill: kept by a reduction, moved by an addition, started anew by an opening or a flip |
| `PositionRuns.RunKeepsFacts` | src/pmrp/portfolio/positions.py:56-175 | Over any run of fills: quantity is the net of the fills, the version rises by one per fill, an average exists iff open, and realized PnL minus cost moves by sell notional minus buy notional |
| `PositionRuns.RoundTripRealizesNotional` | src/pmrp/portfolio/positions.py:200-276 | Path independence: fills that start and end flat realize sell notional minus buy notional, whatever lies between |
| `PositionRuns.RunKeepsEpisode` | src/pmrp/portfolio/positions.py:338-351 | After any run from any flat position (none, closed by fills or settled), average and opening time exist iff the position is open; the average lies between prices of the fills that built it since it last opened or flipped, and it opened at the first of them |
| `Journals.BuildFillJournalEntry` | src/pmrp/portfolio/journal.py:31-131 | The growing list of lines equals its specification, whose totals the rows below give |
| `Journals.FillLinesBook` | src/pmrp/portfolio/journal.py:49-120 | Each account's total over the lines, whichever optional groups are present |
| `Journals.ProjectionCoheres` | src/pmrp/portfolio/journal.py:146-206 | Every projection of a fill passes all consistency checks of the journal, and its amounts cancel |
| `Journals.ProjectionBooks` | src/pmrp/portfolio/journal.py:49-120 | The lines sum to zero and book exactly what the fill did: cost is the change in quantity times average, PnL accounts offset realized PnL, fees and rebates match, cash is the rest |
| `Journals.FillJournals` | src/pmrp/portfolio/journal.py:31-131 | The journal of a projected fill is rejected iff its creation time is before the fill; otherwise it books the fill |
| `Journals.EntryAcceptedIff` | src/pmrp/portfolio/journal.py:146-206 | For any projection, even one that no fill made: an entry is built iff the projection is of one currency, nonnegative and agrees with the fill in every amount, and the entry is not dated before the fill |
| `LedgerRounding.ShortClosingsAreTheLedger` | src/pmrp/portfolio/journal.py:201-206 | In the 28-digit context, when quantity and prices in a common unit have at most 28 digits together, the check passes and cost, value and realized PnL are those of the exact model |
| `LedgerRounding.RoundedAverageIsRejected` | src/pmrp/portfolio/journal.py:201-206 | Buying 1 at 0.7 and 5 at 0.3 and selling 5 at 0.3 is rejected: the rounded average makes position and journal disagree on realized PnL |
| `EntryRounding.RunningTotalIsExact` | src/pmrp/schemas/portfolio.py:208-216 | In the 28-digit context, when the amounts of an entry without their signs sum to at most 28 digits in a common unit, the validator accepts iff they cancel exactly |
| `EntryRounding.SmallEntriesPass` | src/pmrp/portfolio/journal.py:31-131 | When quantities and prices have at most 26 digits together, and fee and rebate no more than those, every equality check of a rounded fill passes and the validator accepts its lines, whether it opens, adds, reduces, closes or flips |
| `EntryRounding.SmallEntriesAreTheLedger` | src/pmrp/portfolio/positions.py:230-276 | Under the same bound every rounded amount of a reducing, closing or flipping fill is that of the exact model |
| `Projections.ValidateFillBatch` | src/pmrp/portfolio/projections.py:137-155 | The dictionary pass rejects iff one fill id has two payloads or a fill has no source event |
| `Projections.ApplyFillsOnce` | src/pmrp/portfolio/projections.py:92-134 | The loop over the sorted batch equals the fold that the next rows are about |
| `BatchOrder.BatchRunsInOrder` | src/pmrp/portfolio/projections.py:92-159 | The fills of a batch are applied in lexicographic order of exchange time, receipt time and id |
| `BatchOrder.StepFits` | src/pmrp/portfolio/projections.py:47-89 | One fill of a batch goes through iff it is recorded or fits, and what it leaves: position, ids and a journal under its own source event |
| `BatchOrder.BatchAcceptedIff` | src/pmrp/portfolio/projections.py:92-155 | A batch is accepted iff each id has one payload and a source and every new fill fits currency, money, identity, position and creation time: the order of arrival never makes a fill stale |
| `Projections.BatchForgetsOrder` | src/pmrp/portfolio/projections.py:92-159 | Every permutation of a batch gives the same position, journals, ids, counts or error |
| `Projections.StepsRecord` | src/pmrp/portfolio/projections.py:110-126 | A batch records all its ids and leaves exactly one journal for each id that was new |
| `Projections.RecordedFillsAreNoOps` | src/pmrp/portfolio/projections.py:60-69 | Fills whose ids are recorded change nothing and all count as duplicates |
| `Projections.ReapplyingIsNoOp` | src/pmrp/portfolio/projections.py:92-134 | Reapplying an applied batch changes nothing, adds no journal and counts every fill as a duplicate |
| `Projections.SplittingChangesNothing` | src/pmrp/portfolio/projections.py:92-134 | Splitting a batch at any point of the sort order and applying the parts in turn gives the same result or the same error |
| `Balances.JournalApplies` | src/pmrp/portfolio/balances.py:55-85 | A journal is applied iff it is not older than the balance and has a line for it; total and available move by the account's total, reserved cash stays, validators never reject |
| `Portfolio.TotalSnoc` | src/pmrp/portfolio/pnl.py:171-185 | One more line counts towards an account's total iff it is booked to the account in the currency |
| `Balances.NewJournalIsRecorded` | src/pmrp/portfolio/balances.py:88-113 | A new journal is applied to the cash account and recorded, or refused for the reasons of a posting |
| `Balances.KnownIdsChangeNothing` | src/pmrp/portfolio/balances.py:88-212 | A known id of a posting, correction or transfer is a duplicate and changes nothing, after the checks that precede the lookup |
| `Balances.CorrectionIdsAgreeIff` | src/pmrp/portfolio/balances.py:230-248 | Two balance corrections share an id iff they observe the same of the same balance under the same reference |
| `Balances.CorrectionReachesObservation` | src/pmrp/portfolio/balances.py:165-212 | When a correction is accepted, and that it leaves exactly the observed balance, every field |
| `Balances.TransferLinesTotal` | src/pmrp/portfolio/transfers.py:40-97 | A transfer journal balances and books minus the amount to the source and the amount to the target |
| `Balances.TransferMoves` | src/pmrp/portfolio/transfers.py:100-161 | When a transfer is accepted, with every check written out, and that it moves exactly its amount from one balance to the other, under its journal, and touches nothing else |
| `BalanceRuns.EveryStepTakesEffectOnce` | src/pmrp/portfolio/balances.py:88-113 | Every posting, correction or transfer changes nothing, or takes effect under a new id and changes the cash held by what it brought in |
| `BalanceRuns.TakesEffectIff` | src/pmrp/portfolio/balances.py:88-212 | Exactly when a posting, correction or transfer takes effect, on the fields of balances, journal and amounts |
| `BalanceRuns.RunConserves` | src/pmrp/portfolio/balances.py:55-212 | Over any interleaving across many balances: available plus reserved is total, reserved never changes, no id takes effect twice, cash per currency changes by the inflows alone |
| `BalanceRuns.TransfersConserve` | src/pmrp/portfolio/transfers.py:100-161 | Any run of transfers leaves the cash held in every currency unchanged |
| `Settlements.SettlementLinesBook` | src/pmrp/portfolio/settlement.py:322-341 | Settlement lines sum to zero and book cash, cost and settlement PnL with the right signs |
| `Settlements.SettledMissesNothing` | src/pmrp/portfolio/settlement.py:531-563 | A settled settlement never fails for a missing time or payout |
| `Settlements.SettlementApplies` | src/pmrp/portfolio/settlement.py:241-296 | When a new settlement is accepted; cash gains quantity times payout, PnL gains that less the carried cost, the position closes, and the journal books exactly that |
| `Settlements.SettlementPays` | src/pmrp/portfolio/settlement.py:159-238 | A settlement in numbers: cash gains quantity times the payout of one unit when the outcome won and nothing otherwise, realized PnL that less quantity times average price; every other field of position and balance |
| `Settlements.CorrectionApplies` | src/pmrp/portfolio/settlement.py:347-439 | When a new correction is accepted; cash and PnL move by the difference of the two outcomes and position cost by zero |
| `Settlements.CorrectionPays` | src/pmrp/portfolio/settlement.py:126-145 | A correction in numbers: cash and realized PnL gain what the corrected outcome pays less what the settled one paid; every other field of position and balance |
| `Settlements.CorrectionIdsAgreeIff` | src/pmrp/portfolio/settlement.py:512-528 | Two corrections share an id iff they correct one settlement of one position by one outcome |
| `Settlements.CorrectionReplacesSettlement` | src/pmrp/portfolio/settlement.py:110-157 | Settling and correcting once leaves the position and balance that settling with the corrected outcome would leave, the version apart |
| `Settlements.RepeatedSettlementIsNoOp` | src/pmrp/portfolio/settlement.py:264-274 | Repeating a settlement on its own result is a duplicate and changes nothing |
| `Settlements.RepeatedCorrectionIsNoOp` | src/pmrp/portfolio/settlement.py:376-392 | Repeating a correction on its own result is a duplicate and changes nothing |
| `Settlements.CorrectionOfCorrectionIsRejected` | src/pmrp/portfolio/settlement.py:566-590 | A correction of an earlier correction is always rejected |
| `Corrections.CorrectionsAddUp` | src/pmrp/portfolio/settlement.py:126-145 | For any series of corrections of one settlement: when it is accepted, and that cash and realized PnL both end as if a unit had been paid the settlement's payout plus the sum of the distances from it; repeated ids move nothing |
| `Corrections.LastCorrectionWinsIff` | src/pmrp/portfolio/settlement.py:126-145 | After any number of corrections cash and realized PnL are those of the last outcome iff the payouts of the earlier ones, less the settlement's, sum to zero (for a repeated last one: iff the series already pays what it says) |
| `Corrections.SecondCorrectionOverpays` | src/pmrp/portfolio/settlement.py:126-145 | A unit settled as a loss and corrected twice to pay 1 ends with 2 in cash |
| `Corrections.CorrectionIgnoresWhetherSettled` | src/pmrp/portfolio/settlement.py:361-406 | Acceptance and effect of a new correction are the same whichever other ids are applied: the settlement need never have taken effect |
| `Corrections.CorrectionMovesCashIff` | src/pmrp/portfolio/settlement.py:361-439 | A new correction takes effect iff the checks on balance, positions, settlements and times pass, and then moves cash iff the two outcomes pay the original position differently |
| `Corrections.UnappliedSettlementPays` | src/pmrp/portfolio/settlement.py:361-406 | A flat position whose settlement was never applied gains 1 in cash and PnL from the correction alone |
| `Pnl.ValidateUniqueIds` | src/pmrp/portfolio/pnl.py:188-194 | The pass with a set of seen ids rejects iff two journals share an id |
| `Pnl.AttributionIff` | src/pmrp/portfolio/pnl.py:27-139 | When an attribution is built, and each of its amounts: PnL accounts with their signs turned, the optional amounts as given, and their total less fees |
| `LedgerRuns.FillAdvances` | src/pmrp/portfolio/projections.py:47-89 | A fill event changes nothing, or adds one new journal that says exactly what it did to position and cash |
| `LedgerRuns.SettlementAdvances` | src/pmrp/portfolio/settlement.py:241-296 | The same of a settlement event |
| `LedgerRuns.CorrectionAdvances` | src/pmrp/portfolio/settlement.py:347-439 | The same of a correction event, whatever original position and settlement it names |
| `LedgerRuns.FillTakesEffectIff` | src/pmrp/portfolio/projections.py:47-89 | Exactly when a fill event takes effect, and the position it leaves |
| `LedgerRuns.SettlementTakesEffectIff` | src/pmrp/portfolio/settlement.py:241-439 | Exactly when a settlement or correction event takes effect |
| `LedgerRuns.RunReconciles` | src/pmrp/portfolio/journal.py:49-120 | After any run of fills, settlements and corrections, duplicates and failures included, each account's total over the journals equals the change in the position or balance that it stands for, and no id repeats |
| `LedgerRuns.CostAccountIsInventory` | src/pmrp/portfolio/settlement.py:322-341 | From a flat start the `position_cost` account always carries quantity times average price, and 0 when flat |
| `LedgerRuns.ViewsAgree` | src/pmrp/portfolio/pnl.py:27-139 | With any optional amounts, the attribution of a run's journals is rejected only for a bad currency or period or an amount in another currency; less the settlement amount given, its realized plus settlement PnL is the change in the position's realized PnL, and the change in cash is that less fees, plus rebates, less the change in quantity times average |
| `Idempotency.InMemoryIdempotencyHook.Create` | src/pmrp/commands/dispatcher.py:153-159 | The hook is built iff its size is positive, with an empty table |
| `Idempotency.InMemoryIdempotencyHook.EvictOldestTerminalEntry` | src/pmrp/commands/dispatcher.py:221-227 | The scan removes the first terminal entry that is not protected, or nothing, and says which |
| `Idempotency.InMemoryIdempotencyHook.TrimToCapacity` | src/pmrp/commands/dispatcher.py:215-219 | The eviction loop equals its specification |
| `Idempotency.TrimKeeps` | src/pmrp/commands/dispatcher.py:215-227 | Trimming removes terminal entries only, never the protected one, and no more than it has to |
| `Idempotency.TrimTakesOldest` | src/pmrp/commands/dispatcher.py:215-227 | No evictable entry stays that is older than one that went |
| `Idempotency.InMemoryIdempotencyHook.BeforeDispatch` | src/pmrp/commands/dispatcher.py:161-193 | New table and decision are those of the atomic claim |
| `Idempotency.InMemoryIdempotencyHook.RecordSuccess` | src/pmrp/commands/dispatcher.py:195-203 | The new table is that of the atomic record of a completed entry |
| `Idempotency.InMemoryIdempotencyHook.RecordFailure` | src/pmrp/commands/dispatcher.py:205-213 | The new table is that of the atomic record of a failed entry |
| `Idempotency.ClaimFacts` | src/pmrp/commands/dispatcher.py:161-193 | A claim keeps the bound; a known key only moves to the end; a new key is refused iff the table is full of entries in progress |
| `Idempotency.RecordFacts` | src/pmrp/commands/dispatcher.py:195-213 | Recording a claimed key replaces its entry, evicts nothing and makes it the most recent |
| `Idempotency.RecordStaysBoundedIff` | src/pmrp/commands/dispatcher.py:195-219 | Recording stays within the bound iff the key is present, there is room, or some entry is terminal |
| `Idempotency.RecordOutgrows` | src/pmrp/commands/dispatcher.py:195-219 | A hook of size one that claimed a key holds two entries after recording another |
| `DispatchSafety.StepKeepsInv` | src/pmrp/commands/dispatcher.py:244-340 | Every atomic step of every dispatch, cancellation included, keeps the invariant that ties tasks, table and history |
| `DispatchSafety.EveryRunKeepsInv` | src/pmrp/commands/dispatcher.py:161-213 | The invariant holds after every interleaving |
| `DispatchTheorems.OneHandlerPerKey` | src/pmrp/commands/dispatcher.py:244-313 | In every interleaving at most one dispatch owns a key at a time |
| `DispatchTheorems.AtMostOneRunBetweenEvictions` | src/pmrp/commands/dispatcher.py:161-227 | A key's handler starts at most once between evictions of the key, and never while the key is absent |
| `DispatchTheorems.RequestsForKnownKeys` | src/pmrp/commands/dispatcher.py:343-395 | A request for a key in the table never reaches the handler: another fingerprint conflicts, the same one gets exactly the outcome in the history since the last eviction, or is told of the one in progress |
| `DispatchReplies.AdmissionIsAnswered` | src/pmrp/commands/dispatcher.py:248-271 | The literal replies to an unregistered command and to a wrong schema version, before the hook is asked |
| `DispatchReplies.RequestsAreAnswered` | src/pmrp/commands/dispatcher.py:343-395 | In every run, the literal reply to a request by what the table holds: conflict, in progress, completed, failed, capacity; and otherwise ownership |
| `DispatchReplies.OwnersAreAnswered` | src/pmrp/commands/dispatcher.py:285-340 | In every run, whatever happens before the recording: the literal reply to an owner and the literal entry, for a handler that returns, rejects, fails or raises |
| `DispatchReplies.DeadlinesAreAnswered` | src/pmrp/commands/dispatcher.py:274-283 | In every run, past its deadline an owner is rejected and its handler never started; otherwise the handler starts |
| `DispatchTheorems.TerminalEntriesAreComplete` | src/pmrp/commands/dispatcher.py:177-180 | A failed entry always carries its failure |
| `DispatchAnswers.LaterRequestsHearTheOwner` | src/pmrp/commands/dispatcher.py:289-340 | In every run, once an owner has recorded, and until the key is evicted, every later request with the same fingerprint gets the owner's own reply with the duplicate status: results, rejections, failures and expired deadlines |
| `DispatchTheorems.HandlersMatchEntries` | src/pmrp/commands/dispatcher.py:264-289 | A running handler works for the fingerprint in its key's entry, which is in progress |
| `DispatchTheorems.TableStaysBounded` | src/pmrp/commands/dispatcher.py:183-193 | In every reachable state the table holds at most `max_entries` |
| `DispatchTheorems.EvictionTakesOldestTerminal` | src/pmrp/commands/dispatcher.py:221-227 | An entry leaves only for a new key at a full table, is terminal, and was touched before every other terminal entry |
| `DispatchTheorems.CapacityRefusedIff` | src/pmrp/commands/dispatcher.py:183-188 | A request is refused for capacity iff its key is new and the table is full of entries in progress |
| `DispatchLiveness.AbandonedKeyIsStuck` | src/pmrp/commands/dispatcher.py:285-313 | After an owner is abandoned its key stays in progress whatever follows, and every later request for it is refused |
| `DispatchLiveness.EveryEntryHasAnOwner` | src/pmrp/commands/dispatcher.py:161-213 | In every reachable state an entry in progress belongs to some dispatch: there are no orphans |
| `DispatchLiveness.ProgressIff` | src/pmrp/commands/dispatcher.py:244-340 | In every reachable state a key in progress can still reach an outcome iff no dispatch that owns it was abandoned |
| `DispatchLiveness.OneCancellationBlocks` | src/pmrp/commands/dispatcher.py:285-313 | Submitting, claiming and being cancelled is a run after which no continuation gives the key an outcome |
| `DispatchRefinement.BoundedRefinesIdeal` | src/pmrp/commands/dispatcher.py:161-227 | With at most `max_entries` distinct keys, entries and answers of every interleaving are those of an unbounded exactly-once map |
| `BusSafety.CloseKeepsSane` | src/pmrp/bus/subscription.py:59-126 | The close marker always fits, comes last, and the counter stays right |
| `BusSafety.DeliverKeepsExact` | src/pmrp/bus/subscription.py:98-108 | A delivery keeps consumed plus queued equal to what was due |
| `BusSafety.TakeKeepsExact` | src/pmrp/bus/subscription.py:113-118 | Taking an event keeps it too |
| `BusSafety.CloseKeepsExact` | src/pmrp/bus/subscription.py:120-126 | Closing fixes the lifetime and keeps it too |
| `BusSafety.TotalDelivered` | src/pmrp/bus/in_process.py:65-72 | A publication adds the number of receivers to the sum of consumed and pending events |
| `BusSafety.PublishAllOrNothing` | src/pmrp/bus/in_process.py:48-72 | A publication succeeds iff the bus is open and every matching queue has room; it then reaches exactly the matching queues, and otherwise changes none |
| `BusSafety.PublishReaches` | src/pmrp/bus/in_process.py:168-216 | Which queues a publication reaches, when it succeeds, and which consumers a backpressure error names, with the condition on class, partition and key written out |
| `BusSafety.SeenIsAddressed` | src/pmrp/bus/in_process.py:168-180 | In every run, whatever a subscription was given was published by some step, is of its type and carries the partition it asked for |
| `BusSafety.SubscribeIff` | src/pmrp/bus/in_process.py:74-97 | When a subscription is accepted, and what it starts as |
| `BusSafety.ClosingMarks` | src/pmrp/bus/subscription.py:120-126 | Closing a subscription, or the bus with all of them, puts the marker behind what waits and touches nothing else |
| `BusSafety.TakeGivesOldest` | src/pmrp/bus/subscription.py:113-118 | Taking gives the oldest event still due, ends only when closed, and waits only on an empty queue |
| `BusSafety.StepKeepsInv` | src/pmrp/bus/in_process.py:48-97 | Every publish, subscribe, consume and close keeps the invariant |
| `BusSafety.EveryRunKeepsInv` | src/pmrp/bus/in_process.py:48-97 | Over every interleaving, each subscription has consumed or queued exactly the matching events of its lifetime in order, pending is right and bounded, the marker is unique and last, and the delivery counter is the sum of it all |
| `BusSafety.OpenSubscriptionSees` | src/pmrp/bus/in_process.py:48-72 | Over any stretch that a subscription stays open it sees exactly the matching part of what was published |
| `Bus.QueuedEventSubscription.PublishNowait` | src/pmrp/bus/subscription.py:98-108 | Closed and full are refused without a change; otherwise the event is queued and counted |
| `Bus.QueuedEventSubscription.Next` | src/pmrp/bus/subscription.py:113-118 | Takes the step of the machine: next event, end, or wait |
| `Bus.QueuedEventSubscription.Close` | src/pmrp/bus/subscription.py:120-126 | The first close queues the marker; later ones do nothing |
| `Bus.InProcessEventBus.Create` | src/pmrp/bus/in_process.py:23-46 | A bus is built iff its default queue size is positive and its shutdown timeout not negative, in the initial state; otherwise the first failing check is the error |
| `Bus.InProcessEventBus.MatchingAreTargets` | src/pmrp/bus/in_process.py:168-180 | The matching list holds exactly the open subscriptions that receive the publication, once each |
| `Bus.InProcessEventBus.OrderOfDelivery` | src/pmrp/bus/in_process.py:182-198 | Delivery is by ascending consumer name in deterministic mode and in registration order otherwise, to exactly the consumers addressed |
| `Bus.InProcessEventBus.Publish` | src/pmrp/bus/in_process.py:48-72 | The two loops take the atomic publish step of the machine and keep its invariant; after a success each queue grew by the event iff its subscription is open, to a class of the event, and to every partition or to the explicit key, or else the market; the delivery order is recorded |
| `Bus.InProcessEventBus.Subscribe` | src/pmrp/bus/in_process.py:74-97 | Takes the subscribe step of the machine, its errors included, and keeps the invariant |
| `Bus.InProcessEventBus.ConsumeFrom` | src/pmrp/bus/subscription.py:113-118 | A consumer's step changes its own subscription only and keeps the invariant |
| `Bus.InProcessEventBus.CloseSubscription` | src/pmrp/bus/in_process.py:200-201 | Closing a subscription takes it off the bus and keeps the invariant |
| `Bus.InProcessEventBus.Close` | src/pmrp/bus/in_process.py:149-166 | Closing the bus closes every open subscription and keeps the invariant |
| `Bus.DeliveryForgetsRegistration` | src/pmrp/bus/in_process.py:182-198 | In deterministic mode any two lists of subscriptions that ask for the same names, types and partitions, in any two orders and as different objects, are served in the same order |
| `Bus.BusesAgree` | src/pmrp/bus/in_process.py:168-198 | Two deterministic buses with the same routes registered in any two orders agree on the delivery order of every publication |
| `Bus.PublishOnBoth` | src/pmrp/bus/in_process.py:48-72 | Publishing one event on two such buses leaves the same recorded delivery order |
| `Replay.ReplayClock.Create` | src/pmrp/clock/replay.py:15-27 | A clock is built iff its time lies in its window |
| `Replay.ReplayClock.AdvanceTo` | src/pmrp/clock/replay.py:44-46 | The clock moves iff the time lies in the window |
| `Replay.ReplayClock.Advance` | src/pmrp/clock/replay.py:40-42 | The clock moves by the duration iff it is nonnegative and stays in the window |
| `Replay.ReplayClock.Reset` | src/pmrp/clock/replay.py:48-50 | The clock goes back to the start of its window |
| `Replay.ReplayEngine.AdvanceClock` | src/pmrp/replay/clock.py:34-71 | The guards and the move equal the clock step of the specification; an error moves nothing |
| `Replay.ReplayEngine.PublishInOrder` | src/pmrp/replay/engine.py:42-58 | The loop over the bus and clock objects equals the recursive drive that the theorems are about |
| `Replay.ReplayEngine.RunDataset` | src/pmrp/replay/engine.py:32-71 | A whole run on the objects, every error included, equals its specification |
| `Sorting.SortedSorts` | src/pmrp/replay/sorter.py:35-38 | Sorting returns an ascending permutation |
| `Sorting.SortedOfPermutation` | src/pmrp/replay/sorter.py:35-38 | Permutations sort to the same list when keys determine items |
| `Sorting.SharedKeyExposesOrder` | src/pmrp/replay/sorter.py:35-38 | Two different items with one key give a permutation that sorts differently |
| `Sorting.PrefixAgrees` | src/pmrp/replay/sorter.py:35-38 | Sorted arrangements of the same items agree up to the first key that different items share, and on that key |
| `Sorting.AnyCanComeFirst` | src/pmrp/replay/sorter.py:35-38 | Each item with the first shared key comes first among them for some order of arrival |
| `ReplayTheorems.DrivePublishesPrefix` | src/pmrp/replay/engine.py:42-58 | A run publishes a prefix of the ordered events, all of them iff it ends without an error; whatever other tasks publish in between, that prefix appears in the log in order, and it is all that is added if they publish nothing |
| `ReplayTheorems.ClockNeverTurnsBack` | src/pmrp/replay/clock.py:34-71 | The clock visits the published events in turn, never backward and never out of the window |
| `ReplayTheorems.ClockEndsAt` | src/pmrp/replay/engine.py:42-60 | Where the clock stands when a run ends or fails to publish |
| `ReplayTheorems.KeyFailsIff` | src/pmrp/replay/sorter.py:41-88 | When an event gives no ordering key, and for which reason |
| `ReplayTheorems.FirstKeyErrorIsFirst` | src/pmrp/replay/sorter.py:35-38 | The sort fails with the reason of the first event, in loading order, that gives no key |
| `ReplayTheorems.KeyOrderIs` | src/pmrp/replay/sorter.py:23-63 | The order written out: time, sequence with missing ones last, receipt, partition, id |
| `ReplayTheorems.SortedIsInOrder` | src/pmrp/replay/sorter.py:35-38 | The sorted events are all of them, in that order |
| `ReplayTheorems.SortedIsTimeOrdered` | src/pmrp/replay/sorter.py:23-38 | Key order is time order |
| `ReplayTheorems.ClockErrorIff` | src/pmrp/replay/clock.py:34-71 | A valid dataset sticks on the clock iff the clock has passed its first event; never from a fresh clock |
| `ReplayTheorems.LoadOrderIsIrrelevant` | src/pmrp/replay/engine.py:32-71 | The same events loaded in another order give the same run when keys determine events |
| `ReplayOrder.LoadOrderIrrelevantIff` | src/pmrp/replay/engine.py:32-71 | For every bus, clock and valid dataset, a run leaves the same bus, clock and answer for every order of loading iff its inputs are rejected, its keys fail for one reason only, or the loop stops before the first key that different events share or would refuse each event of that key |
| `ReplayOrder.ReadyRunsForgetOrderIff` | src/pmrp/replay/engine.py:32-71 | A run that can publish everything ignores the order of loading iff events that share a key are equal |
| `ReplayOrder.BlockedRunsForgetOrder` | src/pmrp/replay/engine.py:42-58 | A closed bus or a clock past the first event stops the run alike in every order of loading, shared keys or not |
| `ReplayOrder.SharedKeyShowsLoadOrder` | src/pmrp/replay/sorter.py:23-38 | A valid dataset of two events with one key that is published in the order of loading |
| `ReplayOrder.FullQueueShowsLoadOrder` | src/pmrp/bus/in_process.py:48-72 | A reachable bus with a full queue and two events with one key: loaded one way the run stops at its first event, loaded the other way it publishes one |
| `ReplayTheorems.SubscriberSeesReplay` | src/pmrp/replay/engine.py:42-58 | Whatever other tasks do meanwhile, a subscription open throughout sees exactly the matching part of what was published, the published prefix among it in order; with no other publisher, exactly the matching part of that prefix |
| `ReplayCompletion.PublishesAllIff` | src/pmrp/replay/engine.py:42-58 | An undisturbed run publishes every event iff the bus is open, the clock has not passed any event, and every open queue has room for its waiting and its matching events together |
| `ReplayCompletion.CompletesIff` | src/pmrp/replay/engine.py:32-71 | From any clock in its window and any reachable bus, a run returns a session iff policy, window and keys are valid, everything can be published, and the manifest was not created after the window starts; every field of the session; failing only the last, it has published everything |
| `ReplayCompletion.InputsAreChecked` | src/pmrp/replay/engine.py:95-113 | Why a run that does not start fails, in the order of the checks, leaving bus and clock alone |
| `ReplayCompletion.PassedClockSticks` | src/pmrp/replay/clock.py:34-71 | A valid dataset and a clock on which the run fails for reversed time |
| `ReplayCompletion.LateManifestLosesTheSession` | src/pmrp/replay/engine.py:60-71 | A valid dataset whose event is published and whose session is rejected |
| `FillModels.WalkBook` | src/pmrp/simulation/fill_models.py:142-160 | The loop equals the recursive walk, and what remains is the order less the filled quantity |
| `FillModels.EstimateBookFill` | src/pmrp/simulation/fill_models.py:124-175 | When an estimate is given and why not; filled is the sum of the components and the smaller of order and executable depth, filled plus remaining is the order, average times filled is the notional, role and reason follow from how much filled, and the components take best price first from reached levels until the order is filled or they are exhausted |
| `FillModels.WalkFillsAll` | src/pmrp/simulation/fill_models.py:142-162 | The filled quantity is the smaller of the order and the executable depth |
| `FillModels.WalkTakes` | src/pmrp/simulation/fill_models.py:142-160 | The components take from levels within the limit only, best first, none twice and no more than displayed; an unfilled order has taken every one of them whole |
| `FillModels.WalkIsCheapest` | src/pmrp/simulation/fill_models.py:142-160 | The exchange argument: any larger allocation costs at least the best remaining price per extra unit more than the walk |
| `FillModels.GreedyIsOptimal` | src/pmrp/simulation/fill_models.py:142-160 | No allocation of the filled quantity within displayed depth costs a buyer less or earns a seller more |
| `FillModels.AverageWithinLimit` | src/pmrp/simulation/fill_models.py:235-240 | The average exists iff something filled and lies between the best price taken and the limit |
| `FillModels.ThroughIsPrefixOfTouch` | src/pmrp/simulation/fill_models.py:223-232 | Trade-through components are a prefix of touch components; at most one more is taken, priced at the limit |
| `QueueModels.VolumeAheadFillsFirst` | src/pmrp/simulation/queue_models.py:156-166 | The volume ahead is what an opposite order at the same limit fills first |
| `QueueModels.QueueEstimateIs` | src/pmrp/simulation/queue_models.py:81-111 | When a queue estimate is given and every field of it, with crossing and volume written out on the levels |
| `QueueModels.FillsIff` | src/pmrp/simulation/fill_models.py:142-160 | The touch model fills something iff an executable level displays quantity |
| `QueueModels.CrossesIffFills` | src/pmrp/simulation/queue_models.py:148-153 | The crossing test agrees with the touch model iff a crossing order meets displayed quantity; always on books without empty levels |
| `QueueModels.EmptyLevelCrossesWithoutFilling` | src/pmrp/simulation/queue_models.py:148-153 | A book with one empty ask on which the two disagree |
| `OrderBook.ApplyOrderBookDelta` | src/pmrp/simulation/order_book.py:55-90 | The loop over two dictionaries equals the fold of the changes, errors included |
| `OrderBook.ApplyOrderBookDeltas` | src/pmrp/simulation/order_book.py:93-108 | The loop over deltas equals their fold and stops at the first error |
| `OrderBook.SortedLevelsSorts` | src/pmrp/simulation/order_book.py:271-282 | Sorting a dictionary lists exactly its levels, strictly ascending |
| `OrderBook.ByPriceLists` | src/pmrp/simulation/order_book.py:254-255 | The dictionary of levels with distinct prices loses nothing |
| `OrderBook.ChangesAreLastWriteWins` | src/pmrp/simulation/order_book.py:258-268 | After any changes each price shows what the last change to it wrote |
| `OrderBook.RebuiltDictionaries` | src/pmrp/simulation/order_book.py:55-90 | The dictionaries of a rebuilt snapshot are those it was built from |
| `OrderBook.DeltasEqualOnePass` | src/pmrp/simulation/order_book.py:93-108 | Deltas applied one by one, each through a sorted snapshot, equal one pass over all their changes |
| `OrderBook.LastWriteWins` | src/pmrp/simulation/order_book.py:55-108 | Every price of the result, a strictly ordered book, shows what the last change over all deltas wrote, or the original level |
| `OrderBook.NoEmptyLevelGained` | src/pmrp/simulation/order_book.py:258-268 | A level of quantity zero in the result was in the snapshot |
| `OrderBook.SequenceAcceptedIff` | src/pmrp/simulation/order_book.py:167-243 | The checks together accept iff both are unsequenced, or the delta carries the next number and names the right predecessor or none |
| `OrderBook.SequenceAdvances` | src/pmrp/simulation/order_book.py:167-243 | An accepted list ends at the initial sequence plus the number of deltas |
| `OrderBook.DeltaAcceptedIff` | src/pmrp/simulation/order_book.py:55-90 | When one delta is accepted, and every field of the new snapshot besides its levels |
| `OrderBook.DeltasAcceptedIff` | src/pmrp/simulation/order_book.py:93-108 | A list is accepted iff it is empty, or snapshot and reason are valid and the deltas follow one another from the snapshot on; the fields of the result are those of the last |
| `FeeModels.CheckTable` | src/pmrp/simulation/fee_models.py:116-139 | The pass with a set of seen pairs accepts iff the table is nonempty and no exchange and role repeat |
| `FeeModels.BoundedFacts` | src/pmrp/simulation/fee_models.py:215-230 | The declared bounds as limits on coefficient and exponent |
| `FeeModels.BoundsIff` | src/pmrp/simulation/fee_models.py:215-230 | The bounds as inequalities, both ways: 28 digits, 18 places, a value below ten to the 37 |
| `Decimals.RoundIsNearest` | src/pmrp/simulation/fee_models.py:16-19 | Rounding to a context leaves what fits alone, and otherwise drops the surplus digits to the nearest, with the sign |
| `FeeModels.RatedUnits` | src/pmrp/simulation/fee_models.py:171-179 | A rated amount has at most 125 digits in the common unit |
| `FeeModels.AmountUnits` | src/pmrp/simulation/fee_models.py:171-179 | A fee or rebate with its fixed part fits the context |
| `FeeModels.NetFits` | src/pmrp/simulation/fee_models.py:171-179 | For all bounded inputs the difference of fee and rebate fits the context |
| `FeeModels.NothingIsRounded` | src/pmrp/simulation/fee_models.py:163-179 | For all bounded inputs the rounding computation equals the exact one, every intermediate value included |
| `FeeModels.EstimateIsExact` | src/pmrp/simulation/fee_models.py:163-179 | For all bounded inputs the estimate is the formula over the reals: price times quantity, basis points of it plus fixed parts, and their difference |
| `FeeModels.RuleForFinds` | src/pmrp/simulation/fee_models.py:190-198 | The lookup finds a rule for exchange and role iff there is one |
| `FeeModels.EstimateAcceptedIff` | src/pmrp/simulation/fee_models.py:147-169 | An estimate is given iff the exchange is named, price and quantity are bounded and of the right sign, and the table has a rule |
| `FeeModels.TableChargesExactly` | src/pmrp/simulation/fee_models.py:147-188 | An accepted table charges every accepted input exactly by its only matching rule |
| `Ulid.DecodeEncode` | src/pmrp/events/factory.py:152-155 | Decoding inverts encoding for every value that fits the width |
| `Ulid.EncodingPreservesOrder` | src/pmrp/events/factory.py:152-155 | String order is numeric order |
| `Ulid.SuffixDecodes` | src/pmrp/events/factory.py:132-149 | A suffix exists iff the timestamp fits 48 bits, has 26 symbols, and decodes to its timestamp and random part |
| `Ulid.SuffixesSort` | src/pmrp/events/factory.py:132-135 | Suffixes sort by timestamp first and random part second |

## Left out

- Decimal rounding in the book, in the fill models and, beyond the entry of a fill that `EntryRounding` covers, in the ledger: amounts there are exact reals (see Modelling choices). The division that rounds an average is not modelled.
- LedgerRounding.ShortClosingsAreTheLedger: a bound on digits that suffices for one check to pass, not a necessary one, since rounding errors may also cancel; `EntryRounding.SmallEntriesPass` covers the whole entry, under a bound that suffices in the same way.
- EntryRounding.SmallEntriesPass: the bound on digits suffices and is not necessary, since rounding errors may also cancel.
- Migrations, storage, units of work, adapters, risk, strategies and the simulated exchange's admission, latency, slippage and settlement estimates: plumbing or short checks.
- SHA-256, canonical JSON, identifier patterns and most text-length checks: hashed identifiers are injective constructors.
- Portfolio snapshots (`src/pmrp/portfolio/projections.py:162-274`), reconciliation reports and fee journals: sums and comparisons field by field. `Balances.JournalApplies` covers any balanced journal.
- `ImmediateTouchQueueModel`, best bid and ask, spread and `is_crossed`: single comparisons.
- Bus health reports, `start_consumer`, consumer handles and shutdown timeouts; asyncio scheduling beyond the atomic steps between suspension points.
- Loading of manifests and datasets, and the replay checksum: the facts that loading establishes are the precondition of a run.
- Exceptions raised by an idempotency hook other than the in-memory one, and the hook-error results of the dispatcher.
- `DeterministicEventIdentifierGenerator` and the event envelope: counters and copied fields. The millisecond timestamp and the random bits of a suffix are parameters.
