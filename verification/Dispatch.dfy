/**
 Concurrent command dispatch as interleaved atomic steps over the idempotency table.

 Each lock body of the hook is one step; a handler runs between steps. A dispatch may be abandoned at any point where
 it waits: cancellation is not caught, so an abandoned owner leaves its entry in progress.
 */
module Dispatch {
  import opened Common
  import opened Idempotency

  datatype Command = Command(key: string, fingerprint: string, registered: bool, versionMatches: bool, deadline: Option<Time>)

  datatype DispatchStatus = CompletedDispatch | DuplicateDispatch | RejectedDispatch | FailedDispatch

  datatype Reply = Reply(status: DispatchStatus, result: Option<string>, failure: Option<CommandFailure>)

  /** How a handler ends: it returns, or it raises one of the three kinds of exception. */
  datatype HandlerOutcome =
    | Returned(result: Option<string>)
    | Rejects(message: string, retryable: bool)
    | Fails(kind: FailureKind, message: string, retryable: bool)
    | Raises(exception: string)

  function FailureReply(kind: FailureKind, message: string, retryable: bool, status: DispatchStatus): Reply {
    Reply(status, None, Some(CommandFailure(kind, message, retryable)))
  }

  /** `_result_for_idempotency_decision`: no reply yet when the command is claimed. */
  function ReplyFor(d: Decision): Option<Reply> {
    match d
    case Claimed => None
    case DuplicateCompleted(result) => Some(Reply(DuplicateDispatch, result, None))
    case DuplicateFailed(failure) => Some(Reply(DuplicateDispatch, None, Some(failure)))
    case DuplicateInProgress =>
      Some(FailureReply(DuplicateCommandInProgress, "command idempotency key is already in progress", true, RejectedDispatch))
    case Conflict =>
      Some(FailureReply(IdempotencyConflict, "command idempotency key conflicts with a different command request", false, RejectedDispatch))
    case FailedWithoutMetadata =>
      Some(FailureReply(IdempotencyRejected, "command idempotency key has a failed record without failure metadata", true, RejectedDispatch))
    case CapacityExhausted =>
      Some(FailureReply(IdempotencyRejected, "command idempotency hook capacity is exhausted", true, RejectedDispatch))
  }

  function FailureOf(o: HandlerOutcome): CommandFailure
    requires !o.Returned?
  {
    match o
    case Rejects(message, retryable) => CommandFailure(HandlerRejected, message, retryable)
    case Fails(kind, message, retryable) => CommandFailure(kind, message, retryable)
    case Raises(exception) => CommandFailure(HandlerError, exception + " raised by command handler", false)
  }

  /** The entry that is recorded for a handler's outcome. */
  function EntryFor(c: Command, o: HandlerOutcome): Entry {
    if o.Returned? then Entry(c.fingerprint, Completed, o.result, None)
    else Entry(c.fingerprint, Failed, None, Some(FailureOf(o)))
  }

  function ReplyForOutcome(o: HandlerOutcome): Reply {
    match o
    case Returned(result) => Reply(CompletedDispatch, result, None)
    case Rejects(_, _) => Reply(RejectedDispatch, None, Some(FailureOf(o)))
    case _ => Reply(FailedDispatch, None, Some(FailureOf(o)))
  }

  const DEADLINE_FAILURE := CommandFailure(DeadlineExceeded, "command deadline has expired", false)

  /** Where one dispatch stands. `Finished` waits to record; an abandoned dispatch never moves again. */
  datatype Phase =
    | Arrived
    | Owning
    | Running
    | Finished(entry: Entry, pending: Reply)
    | Answered(reply: Reply)
    | Abandoned(owner: bool)

  datatype Task = Task(command: Command, phase: Phase)

  /** The history of the table and of handler starts. */
  datatype Event = Touched(key: string) | EvictedKey(key: string) | Started(key: string) | Recorded(key: string, entry: Entry)

  datatype State = State(table: Table, max: nat, tasks: map<nat, Task>, log: seq<Event>)

  datatype Step =
    | Submit(id: nat, command: Command)
    | AskHook(id: nat)
    | Begin(id: nat, now: Time)
    | End(id: nat, outcome: HandlerOutcome)
    | Store(id: nat)
    | Abandon(id: nat)

  function Init(max: nat): State {
    State(Table([], map[]), max, map[], [])
  }

  function Move(s: State, id: nat, phase: Phase): State
    requires id in s.tasks
  {
    s.(tasks := s.tasks[id := s.tasks[id].(phase := phase)])
  }

  /** The command's checks that come before the hook. */
  function Admit(c: Command): Phase {
    if !c.registered then
      Answered(FailureReply(UnknownCommandType, "command type is not registered", false, RejectedDispatch))
    else if !c.versionMatches then
      Answered(FailureReply(SchemaVersionMismatch, "command schema version does not match registered handler", false, RejectedDispatch))
    else Arrived
  }

  function EvictionEvents(t: Table, max: nat, key: string): seq<Event> {
    if key !in t.entries && |t.order| >= max && Evicted(t, None).Some? then [EvictedKey(Evicted(t, None).value)] else []
  }

  function TouchEvents(d: Decision, key: string): seq<Event> {
    if d == CapacityExhausted then [] else [Touched(key)]
  }

  /** The lock body of `before_dispatch`. */
  function DoAskHook(s: State, id: nat): State
    requires id in s.tasks
  {
    var c := s.tasks[id].command;
    var (u, d) := Claim(s.table, s.max, c.key, c.fingerprint);
    var phase := if d == Claimed then Owning else Answered(ReplyFor(d).value);
    Move(s, id, phase).(table := u, log := s.log + EvictionEvents(s.table, s.max, c.key) + TouchEvents(d, c.key))
  }

  /** The deadline check, and the start of the handler. */
  function DoBegin(s: State, id: nat, now: Time): State
    requires id in s.tasks
  {
    var c := s.tasks[id].command;
    if c.deadline.Some? && now > c.deadline.value then
      Move(s, id, Finished(Entry(c.fingerprint, Failed, None, Some(DEADLINE_FAILURE)),
                           Reply(RejectedDispatch, None, Some(DEADLINE_FAILURE))))
    else
      Move(s, id, Running).(log := s.log + [Started(c.key)])
  }

  /** The lock body of `record_success` or `record_failure`. */
  function DoStore(s: State, id: nat): State
    requires id in s.tasks && s.tasks[id].phase.Finished?
  {
    var c, phase := s.tasks[id].command, s.tasks[id].phase;
    Move(s, id, Answered(phase.pending)).(
      table := Record(s.table, s.max, c.key, phase.entry),
      log := s.log + [Recorded(c.key, phase.entry)] + [Touched(c.key)])
  }

  /** One step; a step that is not enabled changes nothing. */
  function Do(s: State, step: Step): State {
    match step
    case Submit(id, command) =>
      if id in s.tasks then s else s.(tasks := s.tasks[id := Task(command, Admit(command))])
    case AskHook(id) =>
      if id in s.tasks && s.tasks[id].phase.Arrived? then DoAskHook(s, id) else s
    case Begin(id, now) =>
      if id in s.tasks && s.tasks[id].phase.Owning? then DoBegin(s, id, now) else s
    case End(id, outcome) =>
      if id in s.tasks && s.tasks[id].phase.Running? then
        Move(s, id, Finished(EntryFor(s.tasks[id].command, outcome), ReplyForOutcome(outcome)))
      else s
    case Store(id) =>
      if id in s.tasks && s.tasks[id].phase.Finished? then DoStore(s, id) else s
    case Abandon(id) =>
      if id in s.tasks && !s.tasks[id].phase.Answered? && !s.tasks[id].phase.Abandoned? then
        Move(s, id, Abandoned(!s.tasks[id].phase.Arrived?))
      else s
  }

  function Run(s: State, steps: seq<Step>): State {
    if steps == [] then s else Do(Run(s, steps[..|steps| - 1]), steps[|steps| - 1])
  }

  // ----- reading the history

  /** Handler starts for a key since its last eviction. */
  function RunsSince(log: seq<Event>, key: string): nat {
    if log == [] then 0
    else
      var earlier := RunsSince(log[..|log| - 1], key);
      match log[|log| - 1]
      case EvictedKey(k) => if k == key then 0 else earlier
      case Started(k) => if k == key then earlier + 1 else earlier
      case _ => earlier
  }

  /** The last entry recorded for a key since its last eviction. */
  function OutcomeSince(log: seq<Event>, key: string): Option<Entry> {
    if log == [] then None
    else
      var earlier := OutcomeSince(log[..|log| - 1], key);
      match log[|log| - 1]
      case EvictedKey(k) => if k == key then None else earlier
      case Recorded(k, entry) => if k == key then Some(entry) else earlier
      case _ => earlier
  }

  /** When a key was last touched: the length of the history just after it, or zero. */
  function LastTouch(log: seq<Event>, key: string): nat {
    if log == [] then 0
    else if log[|log| - 1] == Touched(key) then |log|
    else LastTouch(log[..|log| - 1], key)
  }

  lemma LogSnoc(log: seq<Event>, e: Event, key: string)
    ensures RunsSince(log + [e], key) ==
              if e == EvictedKey(key) then 0 else if e == Started(key) then RunsSince(log, key) + 1 else RunsSince(log, key)
    ensures OutcomeSince(log + [e], key) ==
              if e == EvictedKey(key) then None else if e.Recorded? && e.key == key then Some(e.entry) else OutcomeSince(log, key)
    ensures LastTouch(log + [e], key) == if e == Touched(key) then |log| + 1 else LastTouch(log, key)
  {
    assert (log + [e])[..|log|] == log;
  }

  lemma {:induction false} LastTouchBound(log: seq<Event>, key: string)
    ensures LastTouch(log, key) <= |log|
  {
    if log != [] {
      LastTouchBound(log[..|log| - 1], key);
    }
  }

  // ----- the invariant

  predicate Owner(t: Task) {
    t.phase.Owning? || t.phase.Running? || t.phase.Finished? || (t.phase.Abandoned? && t.phase.owner)
  }

  ghost predicate Bounded(s: State) {
    1 <= s.max && WellFormed(s.table) && |s.table.order| <= s.max
  }

  /** An owner's key is in the table, in progress, under the owner's own fingerprint. */
  ghost predicate Holds(entries: map<string, Entry>, t: Task) {
    Owner(t) ==>
      && t.command.key in entries
      && entries[t.command.key].status == InProgress
      && entries[t.command.key].fingerprint == t.command.fingerprint
  }

  /** The entry that a finished handler is about to record is terminal and complete. */
  ghost predicate Recordable(t: Task) {
    t.phase.Finished? ==>
      && t.phase.entry.fingerprint == t.command.fingerprint
      && t.phase.entry.status != InProgress
      && (t.phase.entry.status == Failed ==> t.phase.entry.failure.Some?)
  }

  ghost predicate Owned(s: State) {
    && (forall id :: id in s.tasks ==> Holds(s.table.entries, s.tasks[id]) && Recordable(s.tasks[id]))
    && (forall i, j :: i in s.tasks && j in s.tasks && i != j && Owner(s.tasks[i]) && Owner(s.tasks[j]) ==>
          s.tasks[i].command.key != s.tasks[j].command.key)
  }

  /** What the history says about a key is what the table holds for it. */
  ghost predicate Remembered(entries: map<string, Entry>, log: seq<Event>, key: string) {
    && RunsSince(log, key) <= 1
    && (key !in entries ==> RunsSince(log, key) == 0 && OutcomeSince(log, key) == None)
    && (key in entries && entries[key].status == InProgress ==> OutcomeSince(log, key) == None)
    && (key in entries && entries[key].status != InProgress ==> OutcomeSince(log, key) == Some(entries[key]))
  }

  ghost predicate AllRemembered(entries: map<string, Entry>, log: seq<Event>) {
    forall key :: Remembered(entries, log, key)
  }

  ghost predicate Recalled(s: State) {
    && AllRemembered(s.table.entries, s.log)
    && (forall id :: id in s.tasks && s.tasks[id].phase.Owning? ==> RunsSince(s.log, s.tasks[id].command.key) == 0)
  }

  /** The table's order is the order of last touches. */
  ghost predicate ByRecency(order: seq<string>, log: seq<Event>) {
    forall i, j :: 0 <= i < j < |order| ==> LastTouch(log, order[i]) < LastTouch(log, order[j])
  }

  ghost predicate Inv(s: State) {
    Bounded(s) && Owned(s) && Recalled(s) && ByRecency(s.table.order, s.log)
  }
}
