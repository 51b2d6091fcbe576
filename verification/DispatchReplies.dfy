/** What every dispatch is told, written out. */
module DispatchReplies {
  import opened Common
  import opened Idempotency
  import opened Dispatch
  import opened DispatchSafety
  import opened DispatchTheorems

  function Refusal(status: DispatchStatus, kind: FailureKind, message: string, retryable: bool): Phase {
    Answered(Reply(status, None, Some(CommandFailure(kind, message, retryable))))
  }

  /** A command that is not registered, or registered for another schema version, is rejected before the hook is asked. */
  lemma AdmissionIsAnswered(s: State, id: nat, c: Command)
    requires id !in s.tasks
    ensures var t := Do(s, Submit(id, c));
            && t.table == s.table && t.log == s.log
            && t.tasks == s.tasks[id := Task(c,
                 if !c.registered then
                   Refusal(RejectedDispatch, UnknownCommandType, "command type is not registered", false)
                 else if !c.versionMatches then
                   Refusal(RejectedDispatch, SchemaVersionMismatch, "command schema version does not match registered handler", false)
                 else Arrived)]
  {
  }

  lemma {:induction false} KnownKeyIsAnswered(s: State, id: nat)
    requires WellFormed(s.table) && 1 <= s.max && |s.table.order| <= s.max
    requires id in s.tasks && s.tasks[id].command.key in s.table.entries
    requires var e := s.table.entries[s.tasks[id].command.key];
             e.status == Failed ==> e.failure.Some?
    ensures var c := s.tasks[id].command;
            var e := s.table.entries[c.key];
            DoAskHook(s, id).tasks[id].phase ==
              if e.fingerprint != c.fingerprint then
                Refusal(RejectedDispatch, IdempotencyConflict, "command idempotency key conflicts with a different command request", false)
              else if e.status == InProgress then
                Refusal(RejectedDispatch, DuplicateCommandInProgress, "command idempotency key is already in progress", true)
              else if e.status == Completed then Answered(Reply(DuplicateDispatch, e.result, None))
              else Answered(Reply(DuplicateDispatch, None, e.failure))
  {
    var c := s.tasks[id].command;
    ClaimFacts(s.table, s.max, c.key, c.fingerprint);
    hide Claim, WellFormed, EvictionEvents;
  }

  lemma {:induction false} NewKeyIsAnswered(s: State, id: nat)
    requires WellFormed(s.table) && 1 <= s.max && |s.table.order| <= s.max
    requires id in s.tasks && s.tasks[id].command.key !in s.table.entries
    ensures DoAskHook(s, id).tasks[id].phase ==
              if |s.table.order| == s.max && (forall k :: k in s.table.entries ==> s.table.entries[k].status == InProgress) then
                Refusal(RejectedDispatch, IdempotencyRejected, "command idempotency hook capacity is exhausted", true)
              else Owning
  {
    var c := s.tasks[id].command;
    ClaimFacts(s.table, s.max, c.key, c.fingerprint);
    hide Claim, WellFormed, EvictionEvents;
  }

  /** In every run, what the hook's decision tells a request, and when the request goes on as the owner of its key. */
  lemma {:induction false} RequestsAreAnswered(max: nat, steps: seq<Step>, id: nat)
    requires max >= 1
    requires var s := Run(Init(max), steps);
             id in s.tasks && s.tasks[id].phase.Arrived?
    ensures var s := Run(Init(max), steps);
            var t := Do(s, AskHook(id));
            var c := s.tasks[id].command;
            && id in t.tasks
            && t.tasks[id].phase ==
                 if c.key in s.table.entries then
                   var e := s.table.entries[c.key];
                   if e.fingerprint != c.fingerprint then
                     Refusal(RejectedDispatch, IdempotencyConflict, "command idempotency key conflicts with a different command request", false)
                   else if e.status == InProgress then
                     Refusal(RejectedDispatch, DuplicateCommandInProgress, "command idempotency key is already in progress", true)
                   else if e.status == Completed then Answered(Reply(DuplicateDispatch, e.result, None))
                   else Answered(Reply(DuplicateDispatch, None, e.failure))
                 else if |s.table.order| == max && (forall k :: k in s.table.entries ==> s.table.entries[k].status == InProgress) then
                   Refusal(RejectedDispatch, IdempotencyRejected, "command idempotency hook capacity is exhausted", true)
                 else Owning
  {
    EveryRunKeepsInv(max, steps);
    var s := Run(Init(max), steps);
    TerminalEntriesAreComplete(max, steps, s.tasks[id].command.key);
    assert WellFormed(s.table) && 1 <= s.max && |s.table.order| <= s.max && s.max == max;
    assert Do(s, AskHook(id)) == DoAskHook(s, id);
    hide Run, Inv, WellFormed, Refusal;
    if s.tasks[id].command.key in s.table.entries {
      KnownKeyIsAnswered(s, id);
    } else {
      NewKeyIsAnswered(s, id);
    }
    hide DoAskHook;
  }

  // ----- owners

  /** The steps neither record the outcome of this dispatch nor abandon it. */
  predicate Spares(steps: seq<Step>, id: nat) {
    forall i :: 0 <= i < |steps| ==> steps[i] != Store(id) && steps[i] != Abandon(id)
  }

  lemma {:induction false} FinishedStays(s: State, step: Step, id: nat)
    requires id in s.tasks && s.tasks[id].phase.Finished? && step != Store(id) && step != Abandon(id)
    ensures id in Do(s, step).tasks && Do(s, step).tasks[id] == s.tasks[id]
  {
    hide Claim, Record, ReplyFor, FailureReply, EvictionEvents, TouchEvents;
  }

  lemma {:induction false} FinishedWaits(s: State, steps: seq<Step>, id: nat)
    requires Inv(s) && id in s.tasks && s.tasks[id].phase.Finished? && Spares(steps, id)
    ensures var t := Run(s, steps);
            Inv(t) && id in t.tasks && t.tasks[id] == s.tasks[id]
  {
    hide Inv, Do;
    if steps != [] {
      var front, last := steps[..|steps| - 1], steps[|steps| - 1];
      FinishedWaits(s, front, id);
      StepKeepsInv(Run(s, front), last);
      FinishedStays(Run(s, front), last, id);
    }
  }

  lemma {:induction false} StoringAnswers(s: State, id: nat)
    requires Inv(s) && id in s.tasks && s.tasks[id].phase.Finished?
    ensures var t := Do(s, Store(id));
            var key := s.tasks[id].command.key;
            && id in t.tasks && t.tasks[id].phase == Answered(s.tasks[id].phase.pending)
            && key in t.table.entries && t.table.entries[key] == s.tasks[id].phase.entry
  {
    assert Holds(s.table.entries, s.tasks[id]);
    RecordFacts(s.table, s.max, s.tasks[id].command.key, s.tasks[id].phase.entry);
  }

  /**
   In every run, whatever happens between the end of a handler and the recording of its outcome: what the owner is told,
   and what is recorded, for each way that a handler ends.
   */
  lemma {:induction false} OwnersAreAnswered(max: nat, steps: seq<Step>, id: nat, o: HandlerOutcome, more: seq<Step>)
    requires max >= 1 && Spares(more, id)
    requires var s := Run(Init(max), steps);
             id in s.tasks && s.tasks[id].phase.Running?
    ensures var s := Run(Init(max), steps);
            var c := s.tasks[id].command;
            var t := Do(Run(Do(s, End(id, o)), more), Store(id));
            && id in t.tasks && c.key in t.table.entries
            && (o.Returned? ==>
                  && t.tasks[id].phase == Answered(Reply(CompletedDispatch, o.result, None))
                  && t.table.entries[c.key] == Entry(c.fingerprint, Completed, o.result, None))
            && (o.Rejects? ==>
                  && t.tasks[id].phase == Refusal(RejectedDispatch, HandlerRejected, o.message, o.retryable)
                  && t.table.entries[c.key] == Entry(c.fingerprint, Failed, None, Some(CommandFailure(HandlerRejected, o.message, o.retryable))))
            && (o.Fails? ==>
                  && t.tasks[id].phase == Refusal(FailedDispatch, o.kind, o.message, o.retryable)
                  && t.table.entries[c.key] == Entry(c.fingerprint, Failed, None, Some(CommandFailure(o.kind, o.message, o.retryable))))
            && (o.Raises? ==>
                  && t.tasks[id].phase == Refusal(FailedDispatch, HandlerError, o.exception + " raised by command handler", false)
                  && t.table.entries[c.key] ==
                       Entry(c.fingerprint, Failed, None, Some(CommandFailure(HandlerError, o.exception + " raised by command handler", false))))
  {
    EveryRunKeepsInv(max, steps);
    var s := Run(Init(max), steps);
    var ended := Do(s, End(id, o));
    StepKeepsInv(s, End(id, o));
    hide Inv, Run;
    FinishedWaits(ended, more, id);
    StoringAnswers(Run(ended, more), id);
  }

  /** In every run: past its deadline an owner is rejected without its handler being started; otherwise the handler starts. */
  lemma {:induction false} DeadlinesAreAnswered(max: nat, steps: seq<Step>, id: nat, now: Time, more: seq<Step>)
    requires max >= 1 && Spares(more, id)
    requires var s := Run(Init(max), steps);
             id in s.tasks && s.tasks[id].phase.Owning?
    ensures var s := Run(Init(max), steps);
            var c := s.tasks[id].command;
            var begun := Do(s, Begin(id, now));
            if c.deadline.Some? && c.deadline.value < now then
              var t := Do(Run(begun, more), Store(id));
              && begun.log == s.log
              && id in t.tasks && t.tasks[id].phase == Refusal(RejectedDispatch, DeadlineExceeded, "command deadline has expired", false)
              && c.key in t.table.entries
              && t.table.entries[c.key] ==
                   Entry(c.fingerprint, Failed, None, Some(CommandFailure(DeadlineExceeded, "command deadline has expired", false)))
            else
              begun.tasks[id].phase == Running && begun.log == s.log + [Started(c.key)]
  {
    EveryRunKeepsInv(max, steps);
    var s := Run(Init(max), steps);
    var c, begun := s.tasks[id].command, Do(s, Begin(id, now));
    StepKeepsInv(s, Begin(id, now));
    hide Inv, Run;
    if c.deadline.Some? && c.deadline.value < now {
      FinishedWaits(begun, more, id);
      StoringAnswers(Run(begun, more), id);
    }
  }
}
