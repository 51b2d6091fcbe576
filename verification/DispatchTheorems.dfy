/** What dispatch guarantees in every reachable state. */
module DispatchTheorems {
  import opened Common
  import opened Idempotency
  import opened Dispatch
  import opened DispatchSafety

  /** At most one dispatch at a time owns a key: no two handlers for it are ever active together. */
  lemma OneHandlerPerKey(max: nat, steps: seq<Step>, i: nat, j: nat)
    requires max >= 1
    ensures var s := Run(Init(max), steps);
            (i in s.tasks && j in s.tasks && Owner(s.tasks[i]) && Owner(s.tasks[j])
             && s.tasks[i].command.key == s.tasks[j].command.key) ==> i == j
  {
    EveryRunKeepsInv(max, steps);
  }

  /** Between two evictions of a key its handler starts at most once; before the first claim, never. */
  lemma AtMostOneRunBetweenEvictions(max: nat, steps: seq<Step>, key: string)
    requires max >= 1
    ensures var s := Run(Init(max), steps);
            RunsSince(s.log, key) <= 1 && (key !in s.table.entries ==> RunsSince(s.log, key) == 0)
  {
    EveryRunKeepsInv(max, steps);
    var s := Run(Init(max), steps);
    assert Remembered(s.table.entries, s.log, key);
  }

  /** The answer that repeats a recorded entry. */
  function Repeats(e: Entry): Reply {
    Reply(DuplicateDispatch, if e.status == Completed then e.result else None, if e.status == Failed then e.failure else None)
  }

  /**
   A request for a key that is in the table never reaches the handler. With another fingerprint it conflicts; with the same
   one it is told that the command is in progress, or gets exactly the outcome recorded since the last eviction.
   */
  lemma RequestsForKnownKeys(max: nat, steps: seq<Step>, id: nat)
    requires max >= 1
    requires var s := Run(Init(max), steps);
             id in s.tasks && s.tasks[id].phase.Arrived? && s.tasks[id].command.key in s.table.entries
    ensures var s := Run(Init(max), steps);
            var t := Do(s, AskHook(id));
            var c := s.tasks[id].command;
            var e := s.table.entries[c.key];
            && t.tasks[id].phase.Answered?
            && t.table.entries == s.table.entries
            && t.tasks[id].phase.reply ==
                 (if e.fingerprint != c.fingerprint then ReplyFor(Conflict).value
                  else match OutcomeSince(s.log, c.key)
                       case None => ReplyFor(DuplicateInProgress).value
                       case Some(recorded) => Repeats(recorded))
  {
    EveryRunKeepsInv(max, steps);
    var s := Run(Init(max), steps);
    var c := s.tasks[id].command;
    assert Remembered(s.table.entries, s.log, c.key);
    assert WellFormed(s.table) && 1 <= s.max && |s.table.order| <= s.max;
    hide Run, Inv, WellFormed, FailureReply;
    ClaimFacts(s.table, s.max, c.key, c.fingerprint);
    hide Claim;
    TerminalEntriesAreComplete(max, steps, c.key);
  }

  /** A failed entry always carries its failure, so the branch for one without metadata is never taken. */
  lemma {:induction false} TerminalEntriesAreComplete(max: nat, steps: seq<Step>, key: string)
    requires max >= 1
    ensures var s := Run(Init(max), steps);
            key in s.table.entries && s.table.entries[key].status == Failed ==> s.table.entries[key].failure.Some?
  {
    if steps != [] {
      var front, step := steps[..|steps| - 1], steps[|steps| - 1];
      TerminalEntriesAreComplete(max, front, key);
      EveryRunKeepsInv(max, front);
      StepKeepsComplete(Run(Init(max), front), step, key);
    }
  }

  lemma {:induction false} StepKeepsComplete(s: State, step: Step, key: string)
    requires Inv(s)
    requires key in s.table.entries && s.table.entries[key].status == Failed ==> s.table.entries[key].failure.Some?
    ensures var t := Do(s, step);
            key in t.table.entries && t.table.entries[key].status == Failed ==> t.table.entries[key].failure.Some?
  {
    hide AllRemembered, ByRecency, ReplyFor, FailureReply;
    if step.AskHook? && step.id in s.tasks {
      var c := s.tasks[step.id].command;
      ClaimFacts(s.table, s.max, c.key, c.fingerprint);
    } else if step.Store? && step.id in s.tasks && s.tasks[step.id].phase.Finished? {
      var c := s.tasks[step.id].command;
      assert Holds(s.table.entries, s.tasks[step.id]) && Recordable(s.tasks[step.id]);
      RecordFacts(s.table, s.max, c.key, s.tasks[step.id].phase.entry);
    }
  }

  /** Every active handler works for the fingerprint that its key's entry holds. */
  lemma HandlersMatchEntries(max: nat, steps: seq<Step>, id: nat)
    requires max >= 1
    ensures var s := Run(Init(max), steps);
            id in s.tasks && s.tasks[id].phase.Running? ==>
              && s.tasks[id].command.key in s.table.entries
              && s.table.entries[s.tasks[id].command.key].fingerprint == s.tasks[id].command.fingerprint
              && s.table.entries[s.tasks[id].command.key].status == InProgress
  {
    EveryRunKeepsInv(max, steps);
    var s := Run(Init(max), steps);
    if id in s.tasks {
      assert Holds(s.table.entries, s.tasks[id]);
    }
  }

  // ----- capacity and eviction

  lemma TableStaysBounded(max: nat, steps: seq<Step>)
    requires max >= 1
    ensures |Run(Init(max), steps).table.order| <= max
  {
    EveryRunKeepsInv(max, steps);
  }

  lemma {:induction false} OldestTerminalGoes(s: State, k: string)
    requires Inv(s) && Evicted(s.table, None) == Some(k)
    ensures Terminal(s.table, k)
    ensures forall other :: Terminal(s.table, other) && other != k ==> LastTouch(s.log, k) < LastTouch(s.log, other)
  {
    var i := FirstEvictable(s.table, None, 0).value;
    forall other | Terminal(s.table, other) && other != k
      ensures LastTouch(s.log, k) < LastTouch(s.log, other)
    {
      assert other in s.table.order;
      var j :| 0 <= j < |s.table.order| && s.table.order[j] == other;
      assert Evictable(s.table, s.table.order[j], None);
    }
  }

  /**
   Only a request for a new key at a full table evicts, and what it evicts is the terminal entry touched least recently.
   No step removes an entry in progress.
   */
  lemma EvictionTakesOldestTerminal(max: nat, steps: seq<Step>, step: Step, k: string)
    requires max >= 1
    ensures var s := Run(Init(max), steps);
            var t := Do(s, step);
            k in s.table.entries && k !in t.table.entries ==>
              && step.AskHook? && |s.table.order| == max
              && s.table.entries[k].status != InProgress
              && (forall other :: Terminal(s.table, other) && other != k ==> LastTouch(s.log, k) < LastTouch(s.log, other))
  {
    EveryRunKeepsInv(max, steps);
    var s := Run(Init(max), steps);
    hide Run, AllRemembered, ReplyFor, FailureReply;
    var t := Do(s, step);
    if k in s.table.entries && k !in t.table.entries {
      if step.Store? {
        var c := s.tasks[step.id].command;
        assert Holds(s.table.entries, s.tasks[step.id]);
        RecordFacts(s.table, s.max, c.key, s.tasks[step.id].phase.entry);
        assert false;
      }
      var c := s.tasks[step.id].command;
      ClaimFacts(s.table, s.max, c.key, c.fingerprint);
      OldestTerminalGoes(s, k);
    }
  }

  /** A request is refused for capacity exactly when its key is new and the table is full of entries in progress. */
  lemma CapacityRefusedIff(max: nat, steps: seq<Step>, id: nat)
    requires max >= 1
    requires var s := Run(Init(max), steps);
             id in s.tasks && s.tasks[id].phase.Arrived?
    ensures var s := Run(Init(max), steps);
            var c := s.tasks[id].command;
            Claim(s.table, max, c.key, c.fingerprint).1 == CapacityExhausted <==>
              && c.key !in s.table.entries
              && |s.table.order| == max
              && (forall k :: k in s.table.entries ==> s.table.entries[k].status == InProgress)
  {
    EveryRunKeepsInv(max, steps);
    var s := Run(Init(max), steps);
    var c := s.tasks[id].command;
    ClaimFacts(s.table, s.max, c.key, c.fingerprint);
  }
}
