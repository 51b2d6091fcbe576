/** What a later request hears is what the owner was told. */
module DispatchAnswers {
  import opened Common
  import opened Idempotency
  import opened Dispatch
  import opened DispatchSafety
  import opened DispatchTheorems

  /** The answer that waits for a record says the same as the record: same result, same failure. */
  ghost predicate Faithful(t: Task) {
    t.phase.Finished? ==> Repeats(t.phase.entry) == t.phase.pending.(status := DuplicateDispatch)
  }

  ghost predicate AllFaithful(s: State) {
    forall id :: id in s.tasks ==> Faithful(s.tasks[id])
  }

  lemma {:induction false} StepKeepsFaithful(s: State, step: Step)
    requires AllFaithful(s)
    ensures AllFaithful(Do(s, step))
  {
    hide Claim, Record, ReplyFor, FailureReply, EvictionEvents, TouchEvents;
  }

  lemma {:induction false} RunKeepsFaithful(max: nat, steps: seq<Step>)
    ensures AllFaithful(Run(Init(max), steps))
  {
    hide Do;
    if steps != [] {
      RunKeepsFaithful(max, steps[..|steps| - 1]);
      StepKeepsFaithful(Run(Init(max), steps[..|steps| - 1]), steps[|steps| - 1]);
    }
  }

  // ----- a recorded entry stays until it is evicted

  lemma {:induction false} LogGrows(s: State, step: Step)
    ensures s.log <= Do(s, step).log
  {
    hide Claim, Record, ReplyFor, FailureReply, EvictionEvents, TouchEvents;
  }

  /** No step changes a terminal entry; a step that removes it says so in the history. */
  lemma {:induction false} StepKeepsTerminal(s: State, step: Step, key: string)
    requires Inv(s) && Terminal(s.table, key)
    ensures var t := Do(s, step);
            && s.log <= t.log
            && (EvictedKey(key) !in t.log[|s.log|..] ==> key in t.table.entries && t.table.entries[key] == s.table.entries[key])
  {
    hide AllRemembered, ByRecency, ReplyFor, FailureReply;
    LogGrows(s, step);
    var t := Do(s, step);
    if step.AskHook? && step.id in s.tasks && s.tasks[step.id].phase.Arrived? {
      AskKeepsTerminal(s, step.id, key);
    } else if step.Store? && step.id in s.tasks && s.tasks[step.id].phase.Finished? {
      var c := s.tasks[step.id].command;
      assert Holds(s.table.entries, s.tasks[step.id]);
      RecordFacts(s.table, s.max, c.key, s.tasks[step.id].phase.entry);
    }
  }

  lemma {:induction false} AskKeepsTerminal(s: State, id: nat, key: string)
    requires Inv(s) && Terminal(s.table, key) && id in s.tasks
    ensures var t := DoAskHook(s, id);
            && s.log <= t.log
            && (EvictedKey(key) !in t.log[|s.log|..] ==> key in t.table.entries && t.table.entries[key] == s.table.entries[key])
  {
    hide AllRemembered, ByRecency, ReplyFor, FailureReply;
    var c, t := s.tasks[id].command, DoAskHook(s, id);
    ClaimFacts(s.table, s.max, c.key, c.fingerprint);
    var events := EvictionEvents(s.table, s.max, c.key);
    if c.key !in s.table.entries && events != [] {
      assert t.log[|s.log|] == events[0];
      assert events[0] in t.log[|s.log|..] by { assert t.log[|s.log|..][0] == events[0]; }
    }
  }

  lemma {:induction false} RunKeepsTerminal(s: State, steps: seq<Step>, key: string)
    requires Inv(s) && Terminal(s.table, key)
    ensures var t := Run(s, steps);
            && Inv(t) && s.log <= t.log
            && (EvictedKey(key) !in t.log[|s.log|..] ==> key in t.table.entries && t.table.entries[key] == s.table.entries[key])
  {
    hide Inv, Do;
    if steps != [] {
      var front, last := steps[..|steps| - 1], steps[|steps| - 1];
      RunKeepsTerminal(s, front, key);
      var mid, t := Run(s, front), Run(s, steps);
      StepKeepsInv(mid, last);
      LogGrows(mid, last);
      if EvictedKey(key) !in t.log[|s.log|..] {
        NotInPart(t.log, |s.log|, |mid.log|, EvictedKey(key));
        assert t.log[..|mid.log|] == mid.log;
        StepKeepsTerminal(mid, last, key);
      }
    }
  }

  lemma {:induction false} NotInPart(log: seq<Event>, from: nat, mid: nat, e: Event)
    requires from <= mid <= |log| && e !in log[from..]
    ensures e !in log[..mid][from..] && e !in log[mid..]
  {
  }

  /**
   The owner of a key records its outcome and gets its reply. Whatever happens afterwards, as long as the key is not
   evicted, a later request for the same command gets that very reply, marked as a duplicate: handler results,
   rejections, failures and an expired deadline alike.
   */
  lemma {:induction false} LaterRequestsHearTheOwner(max: nat, steps: seq<Step>, owner: nat, more: seq<Step>, later: nat)
    requires max >= 1
    requires var s := Run(Init(max), steps);
             owner in s.tasks && s.tasks[owner].phase.Finished?
    ensures var s := Run(Init(max), steps);
            var c := s.tasks[owner].command;
            var told := Do(s, Store(owner));
            var t := Run(told, more);
            && told.tasks[owner].phase.Answered?
            && told.log <= t.log
            && ((EvictedKey(c.key) !in t.log[|told.log|..] && later in t.tasks && t.tasks[later].phase.Arrived?
                 && t.tasks[later].command.key == c.key && t.tasks[later].command.fingerprint == c.fingerprint) ==>
                  Do(t, AskHook(later)).tasks[later].phase
                  == Answered(told.tasks[owner].phase.reply.(status := DuplicateDispatch)))
  {
    EveryRunKeepsInv(max, steps);
    RunKeepsFaithful(max, steps);
    var s := Run(Init(max), steps);
    var c, entry := s.tasks[owner].command, s.tasks[owner].phase.entry;
    assert Faithful(s.tasks[owner]) && Recordable(s.tasks[owner]) && Holds(s.table.entries, s.tasks[owner]);
    var told := Do(s, Store(owner));
    StepKeepsInv(s, Store(owner));
    assert WellFormed(s.table) && |s.table.order| <= s.max;
    RecordFacts(s.table, s.max, c.key, entry);
    assert told.table.entries[c.key] == entry;
    RunKeepsTerminal(told, more, c.key);
    var t := Run(told, more);
    if EvictedKey(c.key) !in t.log[|told.log|..] && later in t.tasks && t.tasks[later].phase.Arrived?
       && t.tasks[later].command.key == c.key && t.tasks[later].command.fingerprint == c.fingerprint {
      AnswersRepeat(t, later, entry);
    }
  }

  /** A request that finds a complete terminal entry under its own fingerprint repeats it. */
  lemma {:induction false} AnswersRepeat(t: State, later: nat, entry: Entry)
    requires Inv(t) && later in t.tasks && t.tasks[later].phase.Arrived?
    requires t.tasks[later].command.key in t.table.entries && t.table.entries[t.tasks[later].command.key] == entry
    requires entry.fingerprint == t.tasks[later].command.fingerprint && entry.status != InProgress
    requires entry.status == Failed ==> entry.failure.Some?
    ensures Do(t, AskHook(later)).tasks[later].phase == Answered(Repeats(entry))
  {
    hide Claim, AllRemembered, ByRecency, FailureReply;
    var c := t.tasks[later].command;
    ClaimFacts(t.table, t.max, c.key, c.fingerprint);
  }
}
