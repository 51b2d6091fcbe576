/** Deterministic replay: sort the dataset, advance the clock, publish. */
module Replay {
  import opened Common
  import opened Sorting
  import opened BusModel
  import opened Bus

  datatype ReplayError =
    | OrderingPolicyUnsupported | ClockWindowMismatch | SequenceInvalid | PartitionInvalid
    | SessionMissing | SessionMismatch | TimeReversed | OutOfWindow | PublishFailed(processed: nat)
    | SessionRejected | InvalidWindow | NegativeDuration

  const ORDERING_POLICY := "occurred-sequence-received-v1"

  datatype Manifest = Manifest(sessionId: string, startsAt: Time, endsAt: Time, policyVersion: string, createdAt: Time)

  datatype RawDataset = Dataset(manifest: Manifest, events: seq<Event>)

  /** The facts that the manifest and dataset validators establish. */
  ghost predicate ValidDataset(d: RawDataset) {
    && d.manifest.startsAt < d.manifest.endsAt
    && d.events != []
    && forall i :: 0 <= i < |d.events| ==>
         && d.events[i].replaySessionId == Some(d.manifest.sessionId)
         && d.manifest.startsAt <= d.events[i].occurredAt <= d.manifest.endsAt
  }

  datatype Session = Session(sessionId: string, currentTime: Time, processedEvents: nat, startedAt: Time, completedAt: Time)

  // ----- the clock

  class ReplayClock {
    const startsAt: Time
    const endsAt: Time
    var currentTime: Time

    ghost predicate Valid()
      reads this
    {
      startsAt <= currentTime <= endsAt
    }

    constructor (startsAt: Time, endsAt: Time, currentTime: Time)
      requires startsAt <= currentTime <= endsAt
      ensures Valid() && this.startsAt == startsAt && this.endsAt == endsAt && this.currentTime == currentTime
    {
      this.startsAt, this.endsAt, this.currentTime := startsAt, endsAt, currentTime;
    }

    /** Construction with its checks: the window must not be reversed, and the time must lie in it. */
    static method Create(startsAt: Time, endsAt: Time, currentTime: Option<Time>) returns (r: Result<ReplayClock, ReplayError>)
      ensures var t := if currentTime.Some? then currentTime.value else startsAt;
              && (r.Ok? <==> startsAt <= t <= endsAt)
              && (r.Ok? ==> fresh(r.value) && r.value.Valid() && r.value.startsAt == startsAt && r.value.endsAt == endsAt
                            && r.value.currentTime == t)
    {
      var t := if currentTime.Some? then currentTime.value else startsAt;
      if endsAt < startsAt {
        return Err(InvalidWindow);
      }
      if t < startsAt || t > endsAt {
        return Err(OutOfWindow);
      }
      var c := new ReplayClock(startsAt, endsAt, t);
      return Ok(c);
    }

    method AdvanceTo(t: Time) returns (r: Result<Time, ReplayError>)
      requires Valid()
      modifies this
      ensures Valid()
      ensures if startsAt <= t <= endsAt then r == Ok(t) && currentTime == t
              else r == Err(OutOfWindow) && currentTime == old(currentTime)
    {
      if t < startsAt || t > endsAt {
        return Err(OutOfWindow);
      }
      currentTime := t;
      return Ok(t);
    }

    method Advance(duration: int) returns (r: Result<Time, ReplayError>)
      requires Valid()
      modifies this
      ensures Valid() && old(currentTime) <= currentTime
      ensures r.Ok? ==> r.value == currentTime == old(currentTime) + duration
      ensures r.Err? ==> currentTime == old(currentTime)
      ensures r.Ok? <==> 0 <= duration <= endsAt - old(currentTime)
    {
      if duration < 0 {
        return Err(NegativeDuration);
      }
      r := AdvanceTo(currentTime + duration);
    }

    method Reset() returns (t: Time)
      requires Valid()
      modifies this
      ensures Valid() && t == currentTime == startsAt
    {
      currentTime := startsAt;
      return startsAt;
    }
  }

  // ----- the order

  /** A present sequence sorts before a missing one. */
  function SequenceKey(e: Event): Result<(int, int), ReplayError> {
    match e.exchangeSequence
    case Absent => Ok((1, 0))
    case IntValue(n) => if n < 0 then Err(SequenceInvalid) else Ok((0, n))
    case _ => Err(SequenceInvalid)
  }

  function PartitionKey(e: Event): Result<string, ReplayError> {
    match e.sourcePartition
    case Absent => Ok("")
    case StrValue(text) => if Trimmed(text) then Ok(text) else Err(PartitionInvalid)
    case _ => Err(PartitionInvalid)
  }

  /** `replay_event_ordering_key`. */
  function OrderingKeyOf(e: Event): Result<Key, ReplayError> {
    var q :- SequenceKey(e);
    var p :- PartitionKey(e);
    Ok([Int(e.occurredAt), Int(q.0), Int(q.1), Int(e.receivedAt), Str(p), Str(e.eventId)])
  }

  function OrderingKey(e: Event): Key {
    var k := OrderingKeyOf(e);
    if k.Ok? then k.value else []
  }

  /** `sort_replay_events`: the first event without a valid key fails the sort. */
  function SortEvents(events: seq<Event>): Result<seq<Event>, ReplayError> {
    var bad := FirstKeyError(events);
    if bad.Some? then Err(bad.value) else Ok(Sorted(OrderingKey, events))
  }

  function FirstKeyError(events: seq<Event>): Option<ReplayError> {
    if events == [] then None
    else
      var k := OrderingKeyOf(events[0]);
      if k.Err? then Some(k.error) else FirstKeyError(events[1..])
  }

  // ----- driving the bus

  /** Why the clock cannot advance to an event, if it cannot. */
  function ClockError(now: Time, m: Manifest, e: Event): Option<ReplayError> {
    if e.replaySessionId.None? then Some(SessionMissing)
    else if e.replaySessionId.value != m.sessionId then Some(SessionMismatch)
    else if e.occurredAt < now then Some(TimeReversed)
    else if e.occurredAt < m.startsAt || e.occurredAt > m.endsAt then Some(OutOfWindow)
    else None
  }

  datatype Outcome = Outcome(bus: BusState, now: Time, processed: nat, error: Option<ReplayError>)

  /**
   The replay loop. Before each publication other tasks may take the bus steps that `others` lists for it. `done` counts the
   events published so far.
   */
  function Drive(b: BusState, now: Time, events: seq<Event>, m: Manifest, others: seq<seq<Step>>, done: nat): Outcome
    requires |others| == |events|
    decreases |events|
  {
    if events == [] then Outcome(b, now, done, None)
    else
      var e := events[0];
      var stuck := ClockError(now, m, e);
      if stuck.Some? then Outcome(b, now, done, stuck)
      else
        var (c, r) := DoPublish(Run(b, others[0]), e, None);
        if r.Err? then Outcome(c, e.occurredAt, done, Some(PublishFailed(done)))
        else Drive(c, e.occurredAt, events[1..], m, others[1..], done + 1)
  }

  /** No other task moves while the replay runs. */
  function Quiet(n: nat): (q: seq<seq<Step>>)
    ensures |q| == n && forall i :: 0 <= i < n ==> q[i] == []
  {
    seq(n, _ => [])
  }

  function CheckInputs(m: Manifest, startsAt: Time, endsAt: Time): Result<(), ReplayError> {
    if m.policyVersion != ORDERING_POLICY then Err(OrderingPolicyUnsupported)
    else if startsAt != m.startsAt || endsAt != m.endsAt then Err(ClockWindowMismatch)
    else Ok(())
  }

  /** The session validators that a completed session has to pass. */
  function MakeSession(m: Manifest, processed: nat, now: Time): Result<Session, ReplayError> {
    if now < m.startsAt || now > m.endsAt || m.startsAt < m.createdAt || now < m.createdAt || now < m.startsAt then Err(SessionRejected)
    else Ok(Session(m.sessionId, now, processed, m.startsAt, now))
  }

  class ReplayEngine {
    const clock: ReplayClock
    const bus: InProcessEventBus

    constructor (clock: ReplayClock, bus: InProcessEventBus)
      ensures this.clock == clock && this.bus == bus
    {
      this.clock, this.bus := clock, bus;
    }

    /** `advance_replay_clock_to_event`. */
    method AdvanceClock(m: Manifest, e: Event) returns (stuck: Option<ReplayError>)
      requires clock.Valid() && clock.startsAt == m.startsAt && clock.endsAt == m.endsAt
      modifies clock
      ensures clock.Valid()
      ensures stuck == ClockError(old(clock.currentTime), m, e)
      ensures stuck.None? <==> e.replaySessionId == Some(m.sessionId) && old(clock.currentTime) <= e.occurredAt
                               && m.startsAt <= e.occurredAt <= m.endsAt
      ensures clock.currentTime == if stuck.Some? then old(clock.currentTime) else e.occurredAt
    {
      if e.replaySessionId.None? {
        return Some(SessionMissing);
      }
      if e.replaySessionId.value != m.sessionId {
        return Some(SessionMismatch);
      }
      if e.occurredAt < clock.currentTime {
        return Some(TimeReversed);
      }
      var advanced := clock.AdvanceTo(e.occurredAt);
      return if advanced.Err? then Some(advanced.error) else None;
    }

    /** The loop of `run`, with no other task using the bus meanwhile. */
    method PublishInOrder(ordered: seq<Event>, m: Manifest) returns (processedEvents: nat, error: Option<ReplayError>)
      requires clock.Valid() && bus.Valid() && clock.startsAt == m.startsAt && clock.endsAt == m.endsAt
      modifies clock, bus, bus.all
      ensures clock.Valid() && bus.Valid() && bus.all == old(bus.all)
      ensures Outcome(bus.View(), clock.currentTime, processedEvents, error)
           == Drive(old(bus.View()), old(clock.currentTime), ordered, m, Quiet(|ordered|), 0)
    {
      hide DoPublish, Drive, ClockError;
      processedEvents := 0;
      assert ordered[0..] == ordered;
      for i := 0 to |ordered|
        invariant clock.Valid() && bus.Valid() && bus.all == old(bus.all)
        invariant processedEvents == i
        invariant Drive(old(bus.View()), old(clock.currentTime), ordered, m, Quiet(|ordered|), 0)
               == Drive(bus.View(), clock.currentTime, ordered[i..], m, Quiet(|ordered| - i), i)
      {
        DriveUnfolds(bus.View(), clock.currentTime, ordered, m, i);
        var stuck := AdvanceClock(m, ordered[i]);
        if stuck.Some? {
          return i, stuck;
        }
        var published := bus.Publish(ordered[i], None);
        if published.Err? {
          return i, Some(PublishFailed(processedEvents));
        }
        processedEvents := processedEvents + 1;
      }
      DriveEnds(bus.View(), clock.currentTime, ordered, m);
      return processedEvents, None;
    }

    /** `run`. */
    method RunDataset(d: RawDataset) returns (r: Result<Session, ReplayError>)
      requires ValidDataset(d) && clock.Valid() && bus.Valid()
      modifies clock, bus, bus.all
      ensures clock.Valid() && bus.Valid() && bus.all == old(bus.all)
      ensures (bus.View(), clock.currentTime, r)
           == RunResult(old(bus.View()), old(clock.currentTime), clock.startsAt, clock.endsAt, d)
    {
      hide Drive;
      var checked := CheckInputs(d.manifest, clock.startsAt, clock.endsAt);
      if checked.Err? {
        return Err(checked.error);
      }
      var sorted := SortEvents(d.events);
      if sorted.Err? {
        return Err(sorted.error);
      }
      var processedEvents, error := PublishInOrder(sorted.value, d.manifest);
      if error.Some? {
        return Err(error.value);
      }
      r := MakeSession(d.manifest, processedEvents, clock.currentTime);
    }
  }

  /** What `run` leaves: the bus, the clock and the answer. */
  function RunResult(b: BusState, now: Time, startsAt: Time, endsAt: Time, d: RawDataset): (BusState, Time, Result<Session, ReplayError>) {
    var checked := CheckInputs(d.manifest, startsAt, endsAt);
    if checked.Err? then (b, now, Err(checked.error))
    else
      var sorted := SortEvents(d.events);
      if sorted.Err? then (b, now, Err(sorted.error))
      else
        var out := Drive(b, now, sorted.value, d.manifest, Quiet(|sorted.value|), 0);
        (out.bus, out.now,
         if out.error.Some? then Err(out.error.value) else MakeSession(d.manifest, out.processed, out.now))
  }

  lemma {:induction false} DriveUnfolds(b: BusState, now: Time, ordered: seq<Event>, m: Manifest, i: nat)
    requires i < |ordered|
    ensures Drive(b, now, ordered[i..], m, Quiet(|ordered| - i), i) ==
              var e := ordered[i];
              var stuck := ClockError(now, m, e);
              if stuck.Some? then Outcome(b, now, i, stuck)
              else
                var (c, r) := DoPublish(b, e, None);
                if r.Err? then Outcome(c, e.occurredAt, i, Some(PublishFailed(i)))
                else Drive(c, e.occurredAt, ordered[i + 1..], m, Quiet(|ordered| - (i + 1)), i + 1)
  {
    hide DoPublish, ClockError;
    assert ordered[i..][0] == ordered[i] && ordered[i..][1..] == ordered[i + 1..];
    assert Quiet(|ordered| - i)[1..] == Quiet(|ordered| - (i + 1));
    assert Run(b, []) == b;
  }

  lemma {:induction false} DriveEnds(b: BusState, now: Time, ordered: seq<Event>, m: Manifest)
    ensures Drive(b, now, ordered[|ordered|..], m, Quiet(|ordered| - |ordered|), |ordered|) == Outcome(b, now, |ordered|, None)
  {
  }
}
