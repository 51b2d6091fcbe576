/** With no more distinct keys than entries, the bounded table is an unbounded exactly-once map. */
module DispatchRefinement {
  import opened Common
  import opened Sequences
  import opened Idempotency
  import opened Dispatch
  import opened DispatchSafety

  /** The ideal: a map that never forgets, and the same dispatches. */
  datatype Ideal = Ideal(entries: map<string, Entry>, tasks: map<nat, Task>)

  function IdealMove(s: Ideal, id: nat, phase: Phase): Ideal
    requires id in s.tasks
  {
    s.(tasks := s.tasks[id := s.tasks[id].(phase := phase)])
  }

  function IdealAsk(s: Ideal, id: nat): Ideal
    requires id in s.tasks
  {
    var c := s.tasks[id].command;
    if c.key in s.entries then
      var reply := ReplyFor(Decide(s.entries[c.key], c.fingerprint));
      IdealMove(s, id, if reply.Some? then Answered(reply.value) else Owning)
    else
      IdealMove(s, id, Owning).(entries := s.entries[c.key := Entry(c.fingerprint, InProgress, None, None)])
  }

  function IdealBegin(s: Ideal, id: nat, now: Time): Ideal
    requires id in s.tasks
  {
    var c := s.tasks[id].command;
    if c.deadline.Some? && now > c.deadline.value then
      IdealMove(s, id, Finished(Entry(c.fingerprint, Failed, None, Some(DEADLINE_FAILURE)),
                                Reply(RejectedDispatch, None, Some(DEADLINE_FAILURE))))
    else IdealMove(s, id, Running)
  }

  function IdealDo(s: Ideal, step: Step): Ideal {
    match step
    case Submit(id, command) =>
      if id in s.tasks then s else s.(tasks := s.tasks[id := Task(command, Admit(command))])
    case AskHook(id) =>
      if id in s.tasks && s.tasks[id].phase.Arrived? then IdealAsk(s, id) else s
    case Begin(id, now) =>
      if id in s.tasks && s.tasks[id].phase.Owning? then IdealBegin(s, id, now) else s
    case End(id, outcome) =>
      if id in s.tasks && s.tasks[id].phase.Running? then
        IdealMove(s, id, Finished(EntryFor(s.tasks[id].command, outcome), ReplyForOutcome(outcome)))
      else s
    case Store(id) =>
      if id in s.tasks && s.tasks[id].phase.Finished? then
        IdealMove(s, id, Answered(s.tasks[id].phase.pending)).(
          entries := s.entries[s.tasks[id].command.key := s.tasks[id].phase.entry])
      else s
    case Abandon(id) =>
      if id in s.tasks && !s.tasks[id].phase.Answered? && !s.tasks[id].phase.Abandoned? then
        IdealMove(s, id, Abandoned(!s.tasks[id].phase.Arrived?))
      else s
  }

  function IdealRun(steps: seq<Step>): Ideal {
    if steps == [] then Ideal(map[], map[]) else IdealDo(IdealRun(steps[..|steps| - 1]), steps[|steps| - 1])
  }

  function Abstract(s: State): Ideal {
    Ideal(s.table.entries, s.tasks)
  }

  /** The keys that a run's commands use. */
  function Keys(steps: seq<Step>): set<string> {
    if steps == [] then {}
    else
      var last := steps[|steps| - 1];
      Keys(steps[..|steps| - 1]) + (if last.Submit? then {last.command.key} else {})
  }

  ghost predicate Within(s: State, keys: set<string>) {
    && (forall k :: k in s.table.entries ==> k in keys)
    && (forall id :: id in s.tasks ==> s.tasks[id].command.key in keys)
  }

  lemma {:induction false} OrderIsASet(order: seq<string>, keys: set<string>)
    requires NoRepeats(order) && forall k :: k in order ==> k in keys
    ensures |order| <= |keys|
  {
    if order != [] {
      var last := order[|order| - 1];
      assert last in keys;
      OrderIsASet(order[..|order| - 1], keys - {last});
    }
  }

  /** With room for every key, a new key is claimed without an eviction. */
  lemma {:induction false} NewKeyFits(s: State, keys: set<string>, key: string)
    requires Inv(s) && Within(s, keys) && |keys| <= s.max
    requires key in keys && key !in s.table.entries
    ensures |s.table.order| < s.max
  {
    assert forall k :: k in s.table.order ==> k in keys - {key};
    OrderIsASet(s.table.order, keys - {key});
  }

  lemma {:induction false} AskRefines(s: State, id: nat, keys: set<string>)
    requires Inv(s) && Within(s, keys) && |keys| <= s.max
    requires id in s.tasks && s.tasks[id].phase.Arrived?
    ensures Abstract(DoAskHook(s, id)) == IdealAsk(Abstract(s), id) && Within(DoAskHook(s, id), keys)
  {
    hide AllRemembered, ByRecency, FailureReply, EvictionEvents, WellFormed;
    var c := s.tasks[id].command;
    ClaimFacts(s.table, s.max, c.key, c.fingerprint);
    if c.key !in s.table.entries {
      NewKeyFits(s, keys, c.key);
    }
  }

  lemma {:induction false} StoreRefines(s: State, id: nat, keys: set<string>)
    requires Inv(s) && Within(s, keys)
    requires id in s.tasks && s.tasks[id].phase.Finished?
    ensures Abstract(DoStore(s, id)) == IdealDo(Abstract(s), Store(id)) && Within(DoStore(s, id), keys)
  {
    hide AllRemembered, ByRecency, WellFormed, Record;
    assert Holds(s.table.entries, s.tasks[id]);
    RecordFacts(s.table, s.max, s.tasks[id].command.key, s.tasks[id].phase.entry);
  }

  lemma {:induction false} StepRefines(s: State, step: Step, keys: set<string>)
    requires Inv(s) && Within(s, keys) && |keys| <= s.max
    requires step.Submit? ==> step.command.key in keys
    ensures Abstract(Do(s, step)) == IdealDo(Abstract(s), step) && Within(Do(s, step), keys)
  {
    hide Inv, FailureReply, Admit, DoAskHook, IdealAsk, DoStore;
    match step
    case AskHook(id) =>
      if id in s.tasks && s.tasks[id].phase.Arrived? {
        AskRefines(s, id, keys);
      }
    case Store(id) =>
      if id in s.tasks && s.tasks[id].phase.Finished? {
        StoreRefines(s, id, keys);
      }
    case _ =>
  }

  lemma {:induction false} StateIsWithin(max: nat, steps: seq<Step>, keys: set<string>)
    requires max >= 1 && Keys(steps) <= keys && |keys| <= max
    ensures Abstract(Run(Init(max), steps)) == IdealRun(steps)
    ensures Within(Run(Init(max), steps), keys)
  {
    hide Inv, Do, IdealDo;
    if steps != [] {
      var front := steps[..|steps| - 1];
      StateIsWithin(max, front, keys);
      EveryRunKeepsInv(max, front);
      StepRefines(Run(Init(max), front), steps[|steps| - 1], keys);
    }
  }

  /**
   Refinement: in every interleaving that uses at most `max` distinct keys, entries and answers are those of the map
   that never evicts and never refuses for capacity.
   */
  lemma BoundedRefinesIdeal(max: nat, steps: seq<Step>)
    requires max >= 1 && |Keys(steps)| <= max
    ensures Abstract(Run(Init(max), steps)) == IdealRun(steps)
  {
    StateIsWithin(max, steps, Keys(steps));
  }
}
