/** Exactly when an undisturbed replay publishes everything, and when it completes. */
module ReplayCompletion {
  import opened Common
  import opened Sorting
  import opened BusModel
  import opened BusSafety
  import opened Replay
  import opened ReplayTheorems

  // ----- how much a dataset asks of a queue

  /** The number of events that the subscription will be given. */
  function Wanted(s: Sub, events: seq<Event>): nat {
    |Due(s, Publications(events))|
  }

  lemma {:induction false} WantedConcat(s: Sub, u: seq<Event>, v: seq<Event>)
    ensures Wanted(s, u + v) == Wanted(s, u) + Wanted(s, v)
  {
    assert Publications(u + v) == Publications(u) + Publications(v);
    DueConcat(s, Publications(u), Publications(v));
  }

  lemma {:induction false} WantedOne(s: Sub, e: Event)
    ensures Wanted(s, [e]) == if Matches(s, Published(e, e.marketId)) then 1 else 0
  {
    var log := Publications([e]);
    assert log[..0] == [];
    assert Due(s, log[..0]) == [];
  }

  lemma {:induction false} WantedForgetsOrder(s: Sub, a: seq<Event>, b: seq<Event>)
    requires multiset(a) == multiset(b)
    ensures Wanted(s, a) == Wanted(s, b)
    decreases |a|
  {
    hide Wanted;
    assert |a| == |multiset(a)| == |b|;
    if a == [] {
      assert b == [];
    } else {
      assert a[0] in multiset(b);
      var i :| 0 <= i < |b| && b[i] == a[0];
      var rest := b[..i] + b[i + 1..];
      assert a == [a[0]] + a[1..];
      assert b == b[..i] + ([b[i]] + b[i + 1..]);
      assert multiset(b) == multiset(b[..i]) + (multiset{b[i]} + multiset(b[i + 1..]));
      assert multiset(rest) == multiset(b) - multiset{b[i]};
      TailMultiset(a);
      WantedForgetsOrder(s, a[1..], rest);
      WantedConcat(s, [a[0]], a[1..]);
      WantedConcat(s, b[..i], b[i + 1..]);
      WantedConcat(s, [b[i]], b[i + 1..]);
      WantedConcat(s, b[..i], [b[i]] + b[i + 1..]);
    }
  }

  /** Every open queue has room for all the events that it will be given on top of those that wait in it. */
  ghost predicate Room(b: BusState, events: seq<Event>) {
    forall i :: 0 <= i < |b.subs| && !b.subs[i].closed ==> b.subs[i].pending + Wanted(b.subs[i], events) <= b.subs[i].size
  }

  ghost predicate NoneOverfull(b: BusState) {
    forall i :: 0 <= i < |b.subs| && !b.subs[i].closed ==> b.subs[i].pending <= b.subs[i].size
  }

  /** A publication takes up exactly the room that the dataset needs for its first event. */
  lemma {:induction false} PublishTakesRoom(b: BusState, e: Event, rest: seq<Event>)
    requires !b.closed && NoneOverfull(b)
    ensures var (c, r) := DoPublish(b, e, None);
            && (r.Err? ==> !Room(b, [e] + rest))
            && (r.Ok? ==> NoneOverfull(c) && c.closed == b.closed && (Room(b, [e] + rest) <==> Room(c, rest)))
  {
    hide Wanted;
    var p := Published(e, e.marketId);
    var (c, r) := DoPublish(b, e, None);
    forall i | 0 <= i < |b.subs|
      ensures Wanted(b.subs[i], [e] + rest) == (if Matches(b.subs[i], p) then 1 else 0) + Wanted(b.subs[i], rest)
    {
      WantedConcat(b.subs[i], [e], rest);
      WantedOne(b.subs[i], e);
    }
    if r.Ok? {
      forall i | 0 <= i < |b.subs|
        ensures Wanted(c.subs[i], rest) == Wanted(b.subs[i], rest)
        ensures !b.subs[i].closed ==> c.subs[i].pending == b.subs[i].pending + if Matches(b.subs[i], p) then 1 else 0
        ensures c.subs[i].size == b.subs[i].size && c.subs[i].closed == b.subs[i].closed
      {
        WantedDepends(b.subs[i], c.subs[i], rest);
      }
    }
  }

  lemma {:induction false} WantedDepends(s: Sub, t: Sub, events: seq<Event>)
    requires s.eventType == t.eventType && s.partition == t.partition
    ensures Wanted(s, events) == Wanted(t, events)
  {
    DueDepends(s, t, Publications(events));
  }

  /** The replay loop, undisturbed, gets through events in time order exactly when bus, clock and queues allow it. */
  lemma {:induction false} DriveCompletesIff(b: BusState, now: Time, events: seq<Event>, m: Manifest, done: nat)
    requires InTimeOrder(events) && InWindow(events, m) && NoneOverfull(b)
    ensures Drive(b, now, events, m, Quiet(|events|), done).error.None? <==>
              events == [] || (!b.closed && now <= events[0].occurredAt && Room(b, events))
    decreases |events|
  {
    hide Room, NoneOverfull, DoPublish;
    if events != [] {
      var e, rest := events[0], events[1..];
      assert Quiet(|events|)[0] == [] && Quiet(|events|)[1..] == Quiet(|rest|);
      assert Run(b, []) == b;
      assert events == [e] + rest;
      if b.closed {
        ClosedRefuses(b, e);
      } else {
        PublishTakesRoom(b, e, rest);
        var (c, r) := DoPublish(b, e, None);
        if r.Ok? {
          DriveCompletesIff(c, e.occurredAt, rest, m, done + 1);
          EmptyFits(c);
        }
      }
    }
  }

  lemma ClosedRefuses(b: BusState, e: Event)
    requires b.closed
    ensures DoPublish(b, e, None).1.Err?
  {
  }

  lemma EmptyFits(b: BusState)
    requires NoneOverfull(b)
    ensures Room(b, [])
  {
    forall i | 0 <= i < |b.subs|
      ensures Wanted(b.subs[i], []) == 0
    {
      assert Publications([]) == [];
    }
  }

  // ----- whole datasets

  /** The bus is open, the clock has not passed any event, and every open queue has room. */
  ghost predicate Publishable(b: BusState, now: Time, events: seq<Event>) {
    && !b.closed
    && (forall i :: 0 <= i < |events| ==> now <= events[i].occurredAt)
    && Room(b, events)
  }

  lemma {:induction false} PublishableForgetsOrder(b: BusState, now: Time, s: seq<Event>, t: seq<Event>)
    requires multiset(s) == multiset(t) && Publishable(b, now, s)
    ensures Publishable(b, now, t)
  {
    hide Wanted;
    forall i | 0 <= i < |t|
      ensures now <= t[i].occurredAt
    {
      assert t[i] in multiset(s);
      var j :| 0 <= j < |s| && s[j] == t[i];
    }
    forall i | 0 <= i < |b.subs|
      ensures Wanted(b.subs[i], s) == Wanted(b.subs[i], t)
    {
      WantedForgetsOrder(b.subs[i], s, t);
    }
  }

  lemma InvHasRoom(b: BusState)
    requires Inv(b)
    ensures NoneOverfull(b)
  {
    forall i | 0 <= i < |b.subs|
      ensures b.subs[i].pending <= b.subs[i].size
    {
      assert Exact(b.subs[i], b.log);
    }
  }

  /** An undisturbed replay of a valid dataset publishes every event exactly when bus, clock and queues allow it. */
  lemma {:induction false} PublishesAllIff(d: RawDataset, b: BusState, now: Time)
    requires ValidDataset(d) && SortEvents(d.events).Ok? && Inv(b)
    ensures var sorted := SortEvents(d.events).value;
            Drive(b, now, sorted, d.manifest, Quiet(|sorted|), 0).error.None? <==> Publishable(b, now, d.events)
  {
    hide Drive, Inv, Room, NoneOverfull;
    var sorted := SortEvents(d.events).value;
    SortedIsTimeOrdered(d.events);
    SortedStaysInWindow(d);
    SortedSorts(OrderingKey, d.events);
    InvHasRoom(b);
    DriveCompletesIff(b, now, sorted, d.manifest, 0);
    if Publishable(b, now, d.events) {
      PublishableForgetsOrder(b, now, d.events, sorted);
    } else if !b.closed && now <= sorted[0].occurredAt && Room(b, sorted) {
      assert Publishable(b, now, sorted);
      PublishableForgetsOrder(b, now, sorted, d.events);
      assert false;
    }
  }

  /** What the run's caller can check before it: policy, window, keys, bus, clock and queues. */
  ghost predicate Ready(d: RawDataset, b: BusState, now: Time, startsAt: Time, endsAt: Time) {
    && d.manifest.policyVersion == "occurred-sequence-received-v1"
    && startsAt == d.manifest.startsAt && endsAt == d.manifest.endsAt
    && FirstKeyError(d.events).None?
    && Publishable(b, now, d.events)
  }

  /** What an undisturbed loop over a valid dataset leaves when it ends without an error. */
  lemma {:induction false} FullLoop(d: RawDataset, b: BusState, now: Time)
    requires ValidDataset(d) && SortEvents(d.events).Ok? && Inv(b) && d.manifest.startsAt <= now <= d.manifest.endsAt
    ensures var s := Sorted(OrderingKey, d.events);
            var out := Drive(b, now, s, d.manifest, Quiet(|s|), 0);
            && |s| == |d.events| && s != []
            && (out.error.None? <==> Publishable(b, now, d.events))
            && (out.error.None? ==>
                  && out.processed == |s| && out.bus.log == b.log + Publications(s)
                  && out.now == s[|s| - 1].occurredAt
                  && d.manifest.startsAt <= out.now <= d.manifest.endsAt)
  {
    hide Drive, Inv, Publishable, Sorted, OrderingKey;
    var s := Sorted(OrderingKey, d.events);
    SortedStaysInWindow(d);
    PublishesAllIff(d, b, now);
    QuietIsSilent(|s|);
    DrivePublishesPrefix(b, now, s, d.manifest, Quiet(|s|), 0);
    ClockNeverTurnsBack(b, now, s, d.manifest, Quiet(|s|), 0);
    ClockEndsAt(b, now, s, d.manifest, Quiet(|s|), 0);
    assert s[..|s|] == s;
  }

  /**
   A replay returns a session if and only if it is ready and its manifest was not created after the window starts. A
   run that is ready has published every event either way.
   */
  lemma {:induction false} CompletesIff(d: RawDataset, b: BusState, now: Time, startsAt: Time, endsAt: Time)
    requires ValidDataset(d) && Inv(b) && startsAt <= now <= endsAt
    ensures var (bus, t, r) := RunResult(b, now, startsAt, endsAt, d);
            && (r.Ok? <==> Ready(d, b, now, startsAt, endsAt) && d.manifest.createdAt <= d.manifest.startsAt)
            && (Ready(d, b, now, startsAt, endsAt) ==>
                  && bus.log == b.log + Publications(Sorted(OrderingKey, d.events))
                  && (r.Err? ==> r == Err(SessionRejected))
                  && (r.Ok? ==>
                        var s := Sorted(OrderingKey, d.events);
                        && s != []
                        && r.value == Session(d.manifest.sessionId, s[|s| - 1].occurredAt, |d.events|,
                                              d.manifest.startsAt, s[|s| - 1].occurredAt)))
  {
    hide Drive, Inv, Publishable, ValidDataset, Sorted, OrderingKey, Publications;
    if CheckInputs(d.manifest, startsAt, endsAt).Ok? && SortEvents(d.events).Ok? {
      FullLoop(d, b, now);
    }
  }

  /** Why a run that does not start fails, in the order of the checks; bus and clock stay as they were. */
  lemma {:induction false} InputsAreChecked(d: RawDataset, b: BusState, now: Time, startsAt: Time, endsAt: Time)
    ensures var result := RunResult(b, now, startsAt, endsAt, d);
            var badPolicy := d.manifest.policyVersion != "occurred-sequence-received-v1";
            var badWindow := startsAt != d.manifest.startsAt || endsAt != d.manifest.endsAt;
            && (badPolicy ==> result == (b, now, Err(OrderingPolicyUnsupported)))
            && (!badPolicy && badWindow ==> result == (b, now, Err(ClockWindowMismatch)))
            && (!badPolicy && !badWindow && FirstKeyError(d.events).Some? ==> result == (b, now, Err(FirstKeyError(d.events).value)))
  {
  }

  // ----- instances

  function Sample(body: string): Event {
    Event.Event("e", {}, None, 0, 0, Some("r"), Absent, Absent, body)
  }

  function SampleManifest(createdAt: Time): Manifest {
    Manifest("r", 0, 1, ORDERING_POLICY, createdAt)
  }

  /** One event at the start of the window, and a clock at its end: the run sticks. */
  lemma {:induction false} PassedClockSticks()
    ensures var d := Dataset(SampleManifest(0), [Sample("")]);
            ValidDataset(d) && RunResult(Init(1), 1, 0, 1, d) == (Init(1), 1, Err(TimeReversed))
  {
    var events := [Sample("")];
    assert FirstKeyError(events[1..]).None?;
    SortedOfAscending(OrderingKey, events);
  }

  lemma {:induction false} EmptyBusIsReady(d: RawDataset)
    requires d.manifest == SampleManifest(d.manifest.createdAt)
    requires forall i :: 0 <= i < |d.events| ==> d.events[i] == Sample(d.events[i].body)
    ensures Inv(Init(1)) && Ready(d, Init(1), 0, 0, 1)
  {
    FirstKeyErrorNone(d.events);
    forall i | 0 <= i < |d.events|
      ensures OrderingKeyOf(d.events[i]).Ok?
    {
      assert d.events[i] == Sample(d.events[i].body);
    }
  }

  /** A manifest created after the window starts: the event is published, and no session is returned. */
  lemma {:induction false} LateManifestLosesTheSession()
    ensures var d := Dataset(SampleManifest(1), [Sample("")]);
            var (bus, t, r) := RunResult(Init(1), 0, 0, 1, d);
            ValidDataset(d) && r == Err(SessionRejected) && |bus.log| == 1
  {
    hide RunResult, Sorted, OrderingKey;
    var d := Dataset(SampleManifest(1), [Sample("")]);
    EmptyBusIsReady(d);
    CompletesIff(d, Init(1), 0, 0, 1);
    SortedSorts(OrderingKey, d.events);
  }
}
