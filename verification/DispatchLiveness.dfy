/** Which keys can still make progress. */
module DispatchLiveness {
  import opened Common
  import opened Idempotency
  import opened Dispatch
  import opened DispatchSafety

  // ----- every entry in progress has an owner

  ghost predicate Owns(s: State, id: nat, key: string) {
    id in s.tasks && s.tasks[id].command.key == key && Owner(s.tasks[id])
  }

  predicate Working(s: State, key: string) {
    key in s.table.entries && s.table.entries[key].status == InProgress
  }

  ghost predicate AllOwned(s: State) {
    forall key :: Working(s, key) ==> exists id :: Owns(s, id, key)
  }

  lemma {:induction false} AskKeepsOwner(s: State, id: nat, key: string)
    requires Inv(s) && AllOwned(s) && id in s.tasks && s.tasks[id].phase.Arrived? && Working(DoAskHook(s, id), key)
    ensures exists other :: Owns(DoAskHook(s, id), other, key)
  {
    var c, t := s.tasks[id].command, DoAskHook(s, id);
    assert WellFormed(s.table) && 1 <= s.max && |s.table.order| <= s.max;
    hide Inv, WellFormed, ReplyFor, EvictionEvents, TouchEvents;
    ClaimFacts(s.table, s.max, c.key, c.fingerprint);
    hide Claim;
    if c.key !in s.table.entries && key == c.key && t.tasks[id].phase.Owning? {
      assert Owns(t, id, key);
    } else {
      assert Working(s, key);
      var other :| Owns(s, other, key);
      assert Owns(t, other, key);
    }
  }

  lemma {:induction false} StoreKeepsOwner(s: State, id: nat, key: string)
    requires Inv(s) && AllOwned(s) && id in s.tasks && s.tasks[id].phase.Finished? && Working(DoStore(s, id), key)
    ensures exists other :: Owns(DoStore(s, id), other, key)
  {
    var c := s.tasks[id].command;
    assert Holds(s.table.entries, s.tasks[id]) && Recordable(s.tasks[id]);
    assert WellFormed(s.table) && |s.table.order| <= s.max;
    hide Inv, WellFormed;
    RecordFacts(s.table, s.max, c.key, s.tasks[id].phase.entry);
    hide Record;
    assert Working(s, key);
    var other :| Owns(s, other, key);
    assert Owns(DoStore(s, id), other, key);
  }

  /** A step leaves an owner in place, records its key, or gives a key that becomes in progress an owner. */
  lemma {:induction false} StepKeepsOwner(s: State, step: Step, key: string)
    requires Inv(s) && AllOwned(s) && Working(Do(s, step), key)
    ensures exists id :: Owns(Do(s, step), id, key)
  {
    hide Inv, ReplyFor, FailureReply, DoAskHook, DoStore;
    if step.AskHook? && step.id in s.tasks && s.tasks[step.id].phase.Arrived? {
      AskKeepsOwner(s, step.id, key);
    } else if step.Store? && step.id in s.tasks && s.tasks[step.id].phase.Finished? {
      StoreKeepsOwner(s, step.id, key);
    } else {
      assert Working(s, key);
      var id :| Owns(s, id, key);
      assert Owns(Do(s, step), id, key);
    }
  }

  /** In every reachable state an entry in progress belongs to some dispatch: there are no orphans. */
  lemma {:induction false} EveryEntryHasAnOwner(max: nat, steps: seq<Step>)
    requires max >= 1
    ensures AllOwned(Run(Init(max), steps))
  {
    hide Do;
    if steps != [] {
      var front, last := steps[..|steps| - 1], steps[|steps| - 1];
      EveryEntryHasAnOwner(max, front);
      EveryRunKeepsInv(max, front);
      var s := Run(Init(max), front);
      forall key | Working(Do(s, last), key)
        ensures exists id :: Owns(Do(s, last), id, key)
      {
        StepKeepsOwner(s, last, key);
      }
    }
  }

  // ----- an abandoned owner never moves again

  ghost predicate Deserted(s: State, key: string) {
    exists id :: id in s.tasks && s.tasks[id].command.key == key && s.tasks[id].phase == Abandoned(true)
  }

  lemma {:induction false} StepLeavesAbandoned(s: State, step: Step, id: nat)
    requires id in s.tasks && s.tasks[id].phase == Abandoned(true)
    ensures id in Do(s, step).tasks && Do(s, step).tasks[id] == s.tasks[id]
  {
    hide Claim, Record, ReplyFor, FailureReply, EvictionEvents;
  }

  lemma {:induction false} AbandonmentLasts(s: State, steps: seq<Step>, id: nat)
    requires Inv(s) && id in s.tasks && s.tasks[id].phase == Abandoned(true)
    ensures var t := Run(s, steps);
            Inv(t) && id in t.tasks && t.tasks[id] == s.tasks[id]
  {
    hide Inv, Do;
    if steps != [] {
      var front := steps[..|steps| - 1];
      AbandonmentLasts(s, front, id);
      StepKeepsInv(Run(s, front), steps[|steps| - 1]);
      StepLeavesAbandoned(Run(s, front), steps[|steps| - 1], id);
    }
  }

  /**
   After an owner is abandoned, whatever happens next, its key stays in progress and every later request for it is
   refused.
   */
  lemma AbandonedKeyIsStuck(max: nat, steps: seq<Step>, more: seq<Step>, id: nat, later: nat)
    requires max >= 1
    requires var s := Run(Init(max), steps);
             id in s.tasks && s.tasks[id].phase == Abandoned(true)
    ensures var s := Run(Init(max), steps);
            var t := Run(s, more);
            var key := s.tasks[id].command.key;
            && Working(t, key)
            && (later in t.tasks && t.tasks[later].phase.Arrived? && t.tasks[later].command.key == key ==>
                  Do(t, AskHook(later)).tasks[later].phase in
                    {Answered(ReplyFor(DuplicateInProgress).value), Answered(ReplyFor(Conflict).value)})
  {
    EveryRunKeepsInv(max, steps);
    var s := Run(Init(max), steps);
    AbandonmentLasts(s, more, id);
    hide Run, Claim, AllRemembered, ByRecency, FailureReply;
    var t := Run(s, more);
    assert Holds(t.table.entries, t.tasks[id]);
    if later in t.tasks && t.tasks[later].command.key == s.tasks[id].command.key {
      ClaimFacts(t.table, t.max, t.tasks[later].command.key, t.tasks[later].command.fingerprint);
    }
  }

  // ----- every other owner can finish

  /** A time at which the deadline has not passed. */
  function InTime(c: Command): Time {
    if c.deadline.Some? then c.deadline.value else 0
  }

  /** The steps that an owner still has to take: start in time, return, record. */
  function Remaining(id: nat, t: Task): seq<Step> {
    match t.phase
    case Owning => [Begin(id, InTime(t.command)), End(id, Returned(None)), Store(id)]
    case Running => [End(id, Returned(None)), Store(id)]
    case Finished(_, _) => [Store(id)]
    case _ => []
  }

  lemma {:induction false} RunCons(s: State, step: Step, rest: seq<Step>)
    ensures Run(s, [step] + rest) == Run(Do(s, step), rest)
  {
    hide Do;
    var all := [step] + rest;
    if rest == [] {
      assert Run(s, all[..0]) == s;
    } else {
      var n := |rest| - 1;
      RunCons(s, step, rest[..n]);
      assert all[..|all| - 1] == [step] + rest[..n];
    }
  }

  lemma {:induction false} RecordingEnds(s: State, id: nat)
    requires Inv(s) && id in s.tasks && s.tasks[id].phase.Finished?
    ensures Terminal(Do(s, Store(id)).table, s.tasks[id].command.key)
  {
    var c := s.tasks[id].command;
    assert Holds(s.table.entries, s.tasks[id]) && Recordable(s.tasks[id]);
    RecordFacts(s.table, s.max, c.key, s.tasks[id].phase.entry);
  }

  /** An owner that has not finished takes the first of its steps, and the rest remain. */
  lemma {:induction false} OwnerMoves(s: State, id: nat)
    requires id in s.tasks && (s.tasks[id].phase.Owning? || s.tasks[id].phase.Running?)
    ensures var steps := Remaining(id, s.tasks[id]);
            var t := Do(s, steps[0]);
            && id in t.tasks && t.tasks[id].command == s.tasks[id].command
            && (t.tasks[id].phase.Running? || t.tasks[id].phase.Finished?)
            && Remaining(id, t.tasks[id]) == steps[1..]
  {
  }

  lemma {:induction false} OwnerCanFinish(s: State, id: nat)
    requires Inv(s) && id in s.tasks && Owner(s.tasks[id]) && !s.tasks[id].phase.Abandoned?
    ensures Terminal(Run(s, Remaining(id, s.tasks[id])).table, s.tasks[id].command.key)
    decreases |Remaining(id, s.tasks[id])|
  {
    hide Inv, Do;
    var steps := Remaining(id, s.tasks[id]);
    assert steps == [steps[0]] + steps[1..];
    RunCons(s, steps[0], steps[1..]);
    if s.tasks[id].phase.Finished? {
      RecordingEnds(s, id);
    } else {
      OwnerMoves(s, id);
      StepKeepsInv(s, steps[0]);
      OwnerCanFinish(Do(s, steps[0]), id);
    }
  }

  ghost predicate CanFinish(s: State, key: string) {
    exists more :: Terminal(Run(s, more).table, key)
  }

  /**
   In every reachable state, a key in progress can still reach an outcome if and only if no dispatch that owns it was
   abandoned.
   */
  lemma {:induction false} ProgressIff(max: nat, steps: seq<Step>, key: string)
    requires max >= 1 && Working(Run(Init(max), steps), key)
    ensures var s := Run(Init(max), steps);
            CanFinish(s, key) <==> !Deserted(s, key)
  {
    hide Inv, Do;
    EveryRunKeepsInv(max, steps);
    EveryEntryHasAnOwner(max, steps);
    var s := Run(Init(max), steps);
    if Deserted(s, key) {
      var id :| id in s.tasks && s.tasks[id].command.key == key && s.tasks[id].phase == Abandoned(true);
      forall more: seq<Step>
        ensures !Terminal(Run(s, more).table, key)
      {
        AbandonedKeyIsStuck(max, steps, more, id, 0);
      }
    } else {
      var id :| Owns(s, id, key);
      OwnerCanFinish(s, id);
    }
  }

  /** The way into the trap: submit a valid command, claim its key, be cancelled. Nothing that follows helps. */
  lemma {:induction false} OneCancellationBlocks(max: nat, c: Command)
    requires max >= 1 && c.registered && c.versionMatches
    ensures var s := Run(Init(max), [Submit(0, c), AskHook(0), Abandon(0)]);
            && 0 in s.tasks && s.tasks[0] == Task(c, Abandoned(true))
            && Working(s, c.key) && !CanFinish(s, c.key)
  {
    var steps := [Submit(0, c), AskHook(0), Abandon(0)];
    assert steps[..2][..1] == steps[..1] && steps[..1][..0] == [];
    var submitted := Do(Init(max), Submit(0, c));
    assert Run(Init(max), steps[..1]) == submitted by { assert Run(Init(max), []) == Init(max); }
    var claimed := Do(submitted, AskHook(0));
    assert Run(Init(max), steps[..2]) == claimed;
    var s := Do(claimed, Abandon(0));
    assert Run(Init(max), steps) == s;
    assert Working(s, c.key);
    ProgressIff(max, steps, c.key);
  }
}
