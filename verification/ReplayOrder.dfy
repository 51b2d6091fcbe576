/** Exactly when an undisturbed replay depends on the order in which its events were loaded. */
module ReplayOrder {
  import opened Common
  import opened Sorting
  import opened BusModel
  import opened BusSafety
  import opened Replay
  import opened ReplayTheorems
  import opened ReplayCompletion

  // ----- the undisturbed loop

  /** The replay loop with no other task on the bus. */
  function Solo(b: BusState, now: Time, events: seq<Event>, m: Manifest, done: nat): Outcome {
    Drive(b, now, events, m, Quiet(|events|), done)
  }

  /** The event cannot be published from here. */
  predicate Refused(b: BusState, now: Time, m: Manifest, e: Event) {
    ClockError(now, m, e).Some? || DoPublish(b, e, None).1.Err?
  }

  lemma {:induction false} SoloUnfolds(b: BusState, now: Time, events: seq<Event>, m: Manifest, done: nat)
    requires events != []
    ensures Solo(b, now, events, m, done) ==
              var e := events[0];
              var stuck := ClockError(now, m, e);
              if stuck.Some? then Outcome(b, now, done, stuck)
              else
                var (c, r) := DoPublish(b, e, None);
                if r.Err? then Outcome(c, e.occurredAt, done, Some(PublishFailed(done)))
                else Solo(c, e.occurredAt, events[1..], m, done + 1)
  {
    hide DoPublish, ClockError;
    assert Quiet(|events|)[0] == [] && Quiet(|events|)[1..] == Quiet(|events| - 1);
    assert Run(b, []) == b;
  }

  /** The loop over two lists in a row stops in the first, or goes on from where it ends. */
  lemma {:induction false} SoloConcat(b: BusState, now: Time, u: seq<Event>, v: seq<Event>, m: Manifest, done: nat)
    ensures var o := Solo(b, now, u, m, done);
            Solo(b, now, u + v, m, done) == if o.error.Some? then o else Solo(o.bus, o.now, v, m, o.processed)
    decreases |u|
  {
    hide DoPublish, ClockError;
    if u == [] {
      assert u + v == v;
      assert Solo(b, now, u, m, done) == Outcome(b, now, done, None);
    } else {
      hide Solo;
      var (c, r) := DoPublish(b, u[0], None);
      SoloUnfolds(b, now, u, m, done);
      SoloUnfolds(b, now, u + v, m, done);
      assert (u + v)[1..] == u[1..] + v;
      SoloConcat(c, u[0].occurredAt, u[1..], v, m, done + 1);
    }
  }

  lemma {:induction false} SoloCounts(b: BusState, now: Time, events: seq<Event>, m: Manifest, done: nat)
    ensures var o := Solo(b, now, events, m, done);
            && done <= o.processed <= done + |events|
            && (o.error.None? ==> o.processed == done + |events|)
            && o.bus.log == b.log + Publications(events[..o.processed - done])
  {
    QuietIsSilent(|events|);
    hide Drive;
    DrivePublishesPrefix(b, now, events, m, Quiet(|events|), done);
  }

  /** The log shows which event came first, if it was published at all. */
  lemma {:induction false} LogShowsFirst(b: BusState, now: Time, events: seq<Event>, m: Manifest, done: nat)
    requires events != []
    ensures var log := Solo(b, now, events, m, done).bus.log;
            if Refused(b, now, m, events[0]) then log == b.log
            else |log| > |b.log| && log[|b.log|] == Published(events[0], events[0].marketId)
  {
    hide Solo, ClockError;
    var e := events[0];
    SoloUnfolds(b, now, events, m, done);
    PublishAllOrNothing(b, e, None);
    var (c, r) := DoPublish(b, e, None);
    if !Refused(b, now, m, e) {
      SoloCounts(c, e.occurredAt, events[1..], m, done + 1);
    }
  }

  /** Two events of the same time that are both refused stop the loop in the same way. */
  lemma {:induction false} RefusalsAgree(b: BusState, now: Time, u: seq<Event>, v: seq<Event>, m: Manifest, done: nat)
    requires u != [] && v != [] && InWindow(u, m) && InWindow(v, m) && u[0].occurredAt == v[0].occurredAt
    requires Refused(b, now, m, u[0]) && Refused(b, now, m, v[0])
    ensures Solo(b, now, u, m, done) == Solo(b, now, v, m, done)
  {
    hide Solo;
    SoloUnfolds(b, now, u, m, done);
    SoloUnfolds(b, now, v, m, done);
  }

  // ----- sorted lists of the same events

  lemma {:induction false} EqualKeysEqualTimes(x: Event, y: Event)
    requires OrderingKeyOf(x).Ok? && OrderingKeyOf(y).Ok? && OrderingKey(x) == OrderingKey(y)
    ensures x.occurredAt == y.occurredAt
  {
    assert OrderingKey(x)[0] == OrderingKey(y)[0];
  }

  /** Sorted events of a valid dataset, with valid keys. */
  ghost predicate Arranged(s: seq<Event>, m: Manifest) {
    && Ascending(OrderingKey, s) && InWindow(s, m)
    && forall i :: 0 <= i < |s| ==> OrderingKeyOf(s[i]).Ok?
  }

  /** Where the loop stands when it comes to the first key that different events share. */
  function Before(b: BusState, now: Time, s: seq<Event>, m: Manifest, n: nat): Outcome
    requires n <= |s|
  {
    Solo(b, now, s[..n], m, 0)
  }

  /** The loop stops before the first shared key, or at it, whichever of its events comes first. */
  ghost predicate StopsInTime(b: BusState, now: Time, s: seq<Event>, m: Manifest, n: nat)
    requires n < |s|
  {
    var o := Before(b, now, s, m, n);
    || o.error.Some?
    || forall e :: e in s && OrderingKey(e) == OrderingKey(s[n]) ==> Refused(o.bus, o.now, m, e)
  }

  lemma {:induction false} SoloSplits(b: BusState, now: Time, s: seq<Event>, m: Manifest, n: nat)
    requires n <= |s|
    ensures var o := Before(b, now, s, m, n);
            Solo(b, now, s, m, 0) == if o.error.Some? then o else Solo(o.bus, o.now, s[n..], m, o.processed)
  {
    assert s == s[..n] + s[n..];
    SoloConcat(b, now, s[..n], s[n..], m, 0);
  }

  /** A loop that stops in time does the same for every arrangement of the events. */
  lemma {:induction false} StoppedLoopsAgree(b: BusState, now: Time, s: seq<Event>, t: seq<Event>, m: Manifest, n: nat)
    requires Arranged(s, m) && Arranged(t, m) && multiset(s) == multiset(t)
    requires FirstShared(OrderingKey, s, n) && StopsInTime(b, now, s, m, n)
    ensures Solo(b, now, t, m, 0) == Solo(b, now, s, m, 0)
  {
    PrefixAgrees(OrderingKey, s, t, n);
    SoloSplits(b, now, s, m, n);
    SoloSplits(b, now, t, m, n);
    var o := Before(b, now, s, m, n);
    if o.error.None? {
      assert t[n] in multiset(s) by { assert t[n] in multiset(t); }
      assert s[n] in s && t[n] in s;
      EqualKeysEqualTimes(s[n], t[n]);
      hide Solo, OrderingKey, OrderingKeyOf, Refused, Ascending, FirstShared;
      RefusalsAgree(o.bus, o.now, s[n..], t[n..], m, o.processed);
    }
  }

  /** Which event of the shared key came first shows in the log, unless both are refused. */
  lemma {:induction false} OrderShows(b: BusState, now: Time, s: seq<Event>, t: seq<Event>, m: Manifest, n: nat)
    requires n < |s| == |t| && s[..n] == t[..n] && s[n] != t[n]
    requires Before(b, now, s, m, n).error.None?
    requires !Refused(Before(b, now, s, m, n).bus, Before(b, now, s, m, n).now, m, s[n])
    ensures Solo(b, now, s, m, 0).bus != Solo(b, now, t, m, 0).bus
  {
    hide Solo, Refused;
    SoloSplits(b, now, s, m, n);
    SoloSplits(b, now, t, m, n);
    var o := Before(b, now, s, m, n);
    LogShowsFirst(o.bus, o.now, s[n..], m, o.processed);
    LogShowsFirst(o.bus, o.now, t[n..], m, o.processed);
  }

  /** A loop that does not stop in time runs differently for two arrangements. */
  lemma {:induction false} UnstoppedLoopsDiffer(b: BusState, now: Time, s: seq<Event>, m: Manifest, n: nat)
    returns (t: seq<Event>, u: seq<Event>)
    requires Ascending(OrderingKey, s) && FirstShared(OrderingKey, s, n) && !StopsInTime(b, now, s, m, n)
    ensures multiset(t) == multiset(s) && Sorted(OrderingKey, t) == t
    ensures multiset(u) == multiset(s) && Sorted(OrderingKey, u) == u
    ensures Solo(b, now, t, m, 0).bus != Solo(b, now, u, m, 0).bus
  {
    hide Solo, OrderingKey, Refused, Ascending, Sorted;
    var o := Before(b, now, s, m, n);
    var x :| x in s && OrderingKey(x) == OrderingKey(s[n]) && !Refused(o.bus, o.now, m, x);
    var y :| y in s && !Distinguishes(OrderingKey, s[n], y);
    var z := if x == s[n] then y else s[n];
    t := AnyCanComeFirst(OrderingKey, s, n, x);
    u := AnyCanComeFirst(OrderingKey, s, n, z);
    OrderShows(b, now, t, u, m, n);
  }

  // ----- keys that cannot be read

  /** Two events of the list fail to give a key, for different reasons. */
  ghost predicate MixedKeyErrors(events: seq<Event>) {
    exists x, y :: x in events && y in events && OrderingKeyOf(x).Err? && OrderingKeyOf(y).Err? && OrderingKeyOf(x) != OrderingKeyOf(y)
  }

  lemma {:induction false} FirstKeyErrorIsOne(events: seq<Event>)
    ensures FirstKeyError(events).Some? ==> exists x :: x in events && OrderingKeyOf(x) == Err(FirstKeyError(events).value)
  {
    if events != [] {
      FirstKeyErrorIsOne(events[1..]);
      if OrderingKeyOf(events[0]).Err? {
        assert events[0] in events;
      } else if FirstKeyError(events).Some? {
        var x :| x in events[1..] && OrderingKeyOf(x) == Err(FirstKeyError(events).value);
        assert x in events;
      }
    }
  }

  /** Any event without a key can be the first to fail. */
  lemma {:induction false} AnyCanFailFirst(events: seq<Event>, x: Event) returns (t: seq<Event>)
    requires x in events && OrderingKeyOf(x).Err?
    ensures multiset(t) == multiset(events) && FirstKeyError(t) == Some(OrderingKeyOf(x).error)
  {
    var rest := WithoutMember(events, x);
    t := [x] + rest;
  }

  // ----- whole datasets

  /** What the run leaves is the same for every order of loading. */
  ghost predicate ForgetsLoadOrder(d: RawDataset, b: BusState, now: Time, startsAt: Time, endsAt: Time) {
    forall t: seq<Event> :: multiset(t) == multiset(d.events) ==>
      RunResult(b, now, startsAt, endsAt, d.(events := t)) == RunResult(b, now, startsAt, endsAt, d)
  }

  /**
   The inputs are rejected; or keys fail, all for one reason; or keys are good and the loop stops before it comes to
   different events with one key, or at them, whichever comes first.
   */
  ghost predicate HidesLoadOrder(d: RawDataset, b: BusState, now: Time, startsAt: Time, endsAt: Time) {
    || CheckInputs(d.manifest, startsAt, endsAt).Err?
    || if FirstKeyError(d.events).Some? then !MixedKeyErrors(d.events)
       else
         var s := Sorted(OrderingKey, d.events);
         forall n: nat :: FirstShared(OrderingKey, s, n) ==> StopsInTime(b, now, s, d.manifest, n)
  }

  lemma {:induction false} PermutedIsValid(d: RawDataset, t: seq<Event>)
    requires ValidDataset(d) && multiset(t) == multiset(d.events)
    ensures ValidDataset(d.(events := t))
  {
    assert |t| == |multiset(t)| == |d.events|;
    forall i | 0 <= i < |t|
      ensures t[i] in d.events
    {
      assert t[i] in multiset(t);
    }
  }

  lemma {:induction false} SortedIsArranged(d: RawDataset)
    requires ValidDataset(d) && FirstKeyError(d.events).None?
    ensures Arranged(Sorted(OrderingKey, d.events), d.manifest)
    ensures multiset(Sorted(OrderingKey, d.events)) == multiset(d.events)
  {
    hide Sorted, OrderingKey, OrderingKeyOf, Ascending;
    SortedStaysInWindow(d);
    SortedSorts(OrderingKey, d.events);
    KeyErrorsForgetOrder(d.events, Sorted(OrderingKey, d.events));
    FirstKeyErrorNone(Sorted(OrderingKey, d.events));
  }

  /** The run of a dataset with good inputs and keys is the undisturbed loop over its sorted events. */
  lemma {:induction false} RunIsSolo(d: RawDataset, b: BusState, now: Time, startsAt: Time, endsAt: Time)
    requires CheckInputs(d.manifest, startsAt, endsAt).Ok? && FirstKeyError(d.events).None?
    ensures var o := Solo(b, now, Sorted(OrderingKey, d.events), d.manifest, 0);
            RunResult(b, now, startsAt, endsAt, d)
            == (o.bus, o.now, if o.error.Some? then Err(o.error.value) else MakeSession(d.manifest, o.processed, o.now))
  {
  }

  lemma {:induction false} KeyFailuresForgetOrderIff(d: RawDataset, b: BusState, now: Time, startsAt: Time, endsAt: Time)
    requires CheckInputs(d.manifest, startsAt, endsAt).Ok? && FirstKeyError(d.events).Some?
    ensures ForgetsLoadOrder(d, b, now, startsAt, endsAt) <==> !MixedKeyErrors(d.events)
  {
    hide OrderingKeyOf, Drive;
    if MixedKeyErrors(d.events) {
      var x, y :| x in d.events && y in d.events && OrderingKeyOf(x).Err? && OrderingKeyOf(y).Err? && OrderingKeyOf(x) != OrderingKeyOf(y);
      var t := AnyCanFailFirst(d.events, x);
      var u := AnyCanFailFirst(d.events, y);
      assert RunResult(b, now, startsAt, endsAt, d.(events := t)).2 != RunResult(b, now, startsAt, endsAt, d.(events := u)).2;
    } else {
      forall t: seq<Event> | multiset(t) == multiset(d.events)
        ensures FirstKeyError(t) == FirstKeyError(d.events)
      {
        if FirstKeyError(t).None? {
          KeyErrorsForgetOrder(t, d.events);
        }
        FirstKeyErrorIsOne(t);
        FirstKeyErrorIsOne(d.events);
        var x :| x in t && OrderingKeyOf(x) == Err(FirstKeyError(t).value);
        assert x in multiset(t) && x in d.events;
      }
    }
  }

  /** All orders of loading, when keys are good. */
  lemma {:induction false} GoodKeysForgetOrderIff(d: RawDataset, b: BusState, now: Time, startsAt: Time, endsAt: Time)
    requires ValidDataset(d) && CheckInputs(d.manifest, startsAt, endsAt).Ok? && FirstKeyError(d.events).None?
    ensures ForgetsLoadOrder(d, b, now, startsAt, endsAt) <==> HidesLoadOrder(d, b, now, startsAt, endsAt)
  {
    hide RunResult, Solo, Sorted, OrderingKey, StopsInTime, CheckInputs, ValidDataset, Arranged, FirstKeyError;
    var s := Sorted(OrderingKey, d.events);
    SortedIsArranged(d);
    if KeyDetermines(OrderingKey, d.events) {
      forall t: seq<Event> | multiset(t) == multiset(d.events)
        ensures RunResult(b, now, startsAt, endsAt, d.(events := t)) == RunResult(b, now, startsAt, endsAt, d)
      {
        LoadOrderIsIrrelevant(d, t, b, now, startsAt, endsAt);
      }
      KeyDeterminesPermutation(OrderingKey, d.events, s);
      NoneShared(s);
    } else {
      if KeyDetermines(OrderingKey, s) {
        KeyDeterminesPermutation(OrderingKey, s, d.events);
        assert false;
      }
      var n := SharedSomewhere(OrderingKey, s, 0);
      OneFirstShared(s, n);
      if StopsInTime(b, now, s, d.manifest, n) {
        forall t: seq<Event> | multiset(t) == multiset(d.events)
          ensures RunResult(b, now, startsAt, endsAt, d.(events := t)) == RunResult(b, now, startsAt, endsAt, d)
        {
          StoppedRunsAgree(d, t, b, now, startsAt, endsAt, n);
        }
      } else {
        var t, u := UnstoppedRunsDiffer(d, b, now, startsAt, endsAt, n);
      }
    }
  }

  lemma NoneShared(s: seq<Event>)
    requires KeyDetermines(OrderingKey, s)
    ensures forall n: nat :: !FirstShared(OrderingKey, s, n)
  {
  }

  lemma OneFirstShared(s: seq<Event>, n: nat)
    requires FirstShared(OrderingKey, s, n)
    ensures forall k: nat :: FirstShared(OrderingKey, s, k) ==> k == n
  {
  }

  lemma {:induction false} StoppedRunsAgree(d: RawDataset, t: seq<Event>, b: BusState, now: Time, startsAt: Time, endsAt: Time, n: nat)
    requires ValidDataset(d) && CheckInputs(d.manifest, startsAt, endsAt).Ok? && FirstKeyError(d.events).None?
    requires FirstShared(OrderingKey, Sorted(OrderingKey, d.events), n)
    requires StopsInTime(b, now, Sorted(OrderingKey, d.events), d.manifest, n) && multiset(t) == multiset(d.events)
    ensures RunResult(b, now, startsAt, endsAt, d.(events := t)) == RunResult(b, now, startsAt, endsAt, d)
  {
    hide RunResult, Solo, Sorted, OrderingKey, StopsInTime, CheckInputs, ValidDataset, Arranged, FirstKeyError, FirstShared;
    PermutedIsValid(d, t);
    KeyErrorsForgetOrder(d.events, t);
    SortedIsArranged(d);
    SortedIsArranged(d.(events := t));
    StoppedLoopsAgree(b, now, Sorted(OrderingKey, d.events), Sorted(OrderingKey, t), d.manifest, n);
    RunIsSolo(d, b, now, startsAt, endsAt);
    RunIsSolo(d.(events := t), b, now, startsAt, endsAt);
  }

  lemma {:induction false} UnstoppedRunsDiffer(d: RawDataset, b: BusState, now: Time, startsAt: Time, endsAt: Time, n: nat)
    returns (t: seq<Event>, u: seq<Event>)
    requires ValidDataset(d) && CheckInputs(d.manifest, startsAt, endsAt).Ok? && FirstKeyError(d.events).None?
    requires FirstShared(OrderingKey, Sorted(OrderingKey, d.events), n)
    requires !StopsInTime(b, now, Sorted(OrderingKey, d.events), d.manifest, n)
    ensures multiset(t) == multiset(d.events) && multiset(u) == multiset(d.events)
    ensures RunResult(b, now, startsAt, endsAt, d.(events := t)) != RunResult(b, now, startsAt, endsAt, d.(events := u))
  {
    assert Ascending(OrderingKey, Sorted(OrderingKey, d.events)) by { SortedIsArranged(d); }
    hide RunResult, Solo, Sorted, OrderingKey, StopsInTime, CheckInputs, ValidDataset, Arranged, FirstKeyError, FirstShared, Ascending;
    SortedIsArranged(d);
    t, u := UnstoppedLoopsDiffer(b, now, Sorted(OrderingKey, d.events), d.manifest, n);
    KeyErrorsForgetOrder(d.events, t);
    KeyErrorsForgetOrder(d.events, u);
    RunIsSolo(d.(events := t), b, now, startsAt, endsAt);
    RunIsSolo(d.(events := u), b, now, startsAt, endsAt);
  }

  /**
   For every bus, every clock and every valid dataset: a run leaves the same bus, clock and answer for every order of
   loading if and only if its inputs are rejected, its keys fail for one reason only, or the loop stops before or at
   the first key that different events share. A full queue that lets one of those events through shows the order.
   */
  lemma {:induction false} LoadOrderIrrelevantIff(d: RawDataset, b: BusState, now: Time, startsAt: Time, endsAt: Time)
    requires ValidDataset(d)
    ensures ForgetsLoadOrder(d, b, now, startsAt, endsAt) <==> HidesLoadOrder(d, b, now, startsAt, endsAt)
  {
    hide Drive;
    if CheckInputs(d.manifest, startsAt, endsAt).Ok? {
      if FirstKeyError(d.events).Some? {
        KeyFailuresForgetOrderIff(d, b, now, startsAt, endsAt);
      } else {
        GoodKeysForgetOrderIff(d, b, now, startsAt, endsAt);
      }
    }
  }

  // ----- runs that publish everything, and runs that publish nothing

  /** A loop that publishes everything does not stop at a shared key. */
  lemma {:induction false} CompleteLoopsPass(b: BusState, now: Time, s: seq<Event>, m: Manifest, n: nat)
    requires n < |s| && Solo(b, now, s, m, 0).error.None?
    ensures !StopsInTime(b, now, s, m, n)
  {
    hide Solo, ClockError, DoPublish, OrderingKey;
    SoloSplits(b, now, s, m, n);
    var o := Before(b, now, s, m, n);
    if o.error.None? {
      SoloUnfolds(o.bus, o.now, s[n..], m, o.processed);
      assert s[n] in s && !Refused(o.bus, o.now, m, s[n]);
    }
  }

  /** A run that can publish everything ignores the order of loading if and only if events that share a key are equal. */
  lemma {:induction false} ReadyRunsForgetOrderIff(d: RawDataset, b: BusState, now: Time, startsAt: Time, endsAt: Time)
    requires ValidDataset(d) && Inv(b) && Ready(d, b, now, startsAt, endsAt)
    ensures ForgetsLoadOrder(d, b, now, startsAt, endsAt) <==> KeyDetermines(OrderingKey, d.events)
  {
    hide ForgetsLoadOrder, Drive, Sorted, OrderingKey, Inv, ValidDataset, Publishable, StopsInTime;
    LoadOrderIrrelevantIff(d, b, now, startsAt, endsAt);
    var s := Sorted(OrderingKey, d.events);
    SortedSorts(OrderingKey, d.events);
    PublishesAllIff(d, b, now);
    if KeyDetermines(OrderingKey, d.events) {
      KeyDeterminesPermutation(OrderingKey, d.events, s);
      NoneShared(s);
    } else {
      if KeyDetermines(OrderingKey, s) {
        KeyDeterminesPermutation(OrderingKey, s, d.events);
        assert false;
      }
      var n := SharedSomewhere(OrderingKey, s, 0);
      CompleteLoopsPass(b, now, s, d.manifest, n);
    }
  }

  lemma {:induction false} BlockedLoopsStop(b: BusState, now: Time, s: seq<Event>, m: Manifest, n: nat)
    requires Arranged(s, m) && n < |s| && (b.closed || s[0].occurredAt < now)
    ensures StopsInTime(b, now, s, m, n)
  {
    if n > 0 {
      SoloUnfolds(b, now, s[..n], m, 0);
    } else {
      forall e | e in s && OrderingKey(e) == OrderingKey(s[0])
        ensures Refused(b, now, m, e)
      {
        var i :| 0 <= i < |s| && s[i] == e;
        EqualKeysEqualTimes(e, s[0]);
      }
    }
  }

  /** A closed bus, or a clock past the first event, stops the run there in every order of loading, shared keys or not. */
  lemma {:induction false} BlockedRunsForgetOrder(d: RawDataset, b: BusState, now: Time, startsAt: Time, endsAt: Time)
    requires ValidDataset(d) && FirstKeyError(d.events).None?
    requires b.closed || exists i :: 0 <= i < |d.events| && d.events[i].occurredAt < now
    ensures ForgetsLoadOrder(d, b, now, startsAt, endsAt)
  {
    hide ForgetsLoadOrder, Drive, OrderingKey, StopsInTime, Alone, Arranged, Sorted;
    LoadOrderIrrelevantIff(d, b, now, startsAt, endsAt);
    var s := Sorted(OrderingKey, d.events);
    SortedIsArranged(d);
    SortedIsTimeOrdered(d.events);
    if !b.closed {
      var i :| 0 <= i < |d.events| && d.events[i].occurredAt < now;
      assert d.events[i] in multiset(s);
      var j :| 0 <= j < |s| && s[j] == d.events[i];
      assert s[0].occurredAt < now;
    }
    forall n: nat | FirstShared(OrderingKey, s, n)
      ensures StopsInTime(b, now, s, d.manifest, n)
    {
      BlockedLoopsStop(b, now, s, d.manifest, n);
    }
  }

  // ----- instances

  lemma {:induction false} EqualKeysStay(x: Event, y: Event)
    requires OrderingKey(x) == OrderingKey(y)
    ensures Sorted(OrderingKey, [x, y]) == [x, y]
  {
    KeyTotal(OrderingKey(x), OrderingKey(y));
    hide OrderingKey, KeyLe;
    SortedOfAscending(OrderingKey, [x, y]);
  }

  /** The run of two events that share a key, in the order of loading. */
  lemma {:induction false} PairRuns(x: Event, y: Event, m: Manifest, b: BusState)
    requires OrderingKeyOf(x).Ok? && OrderingKeyOf(y).Ok? && OrderingKey(x) == OrderingKey(y)
    requires CheckInputs(m, m.startsAt, m.endsAt).Ok?
    ensures var o := Solo(b, m.startsAt, [x, y], m, 0);
            RunResult(b, m.startsAt, m.startsAt, m.endsAt, Dataset(m, [x, y]))
            == (o.bus, o.now, if o.error.Some? then Err(o.error.value) else MakeSession(m, o.processed, o.now))
  {
    hide OrderingKeyOf, OrderingKey, Sorted, Solo, RunResult;
    FirstKeyErrorNone([x, y]);
    EqualKeysStay(x, y);
    RunIsSolo(Dataset(m, [x, y]), b, m.startsAt, m.startsAt, m.endsAt);
  }

  /** Two events that differ only in what the ordering key does not read make a valid dataset with one key. */
  lemma {:induction false} PairIsValid(x: Event, y: Event)
    requires x.(classes := {}, marketId := None, body := "") == Sample("") == y.(classes := {}, marketId := None, body := "")
    ensures ValidDataset(Dataset(SampleManifest(0), [x, y]))
    ensures OrderingKeyOf(x).Ok? && OrderingKeyOf(y).Ok? && OrderingKey(x) == OrderingKey(y)
    ensures ClockError(0, SampleManifest(0), x).None? && ClockError(0, SampleManifest(0), y).None?
  {
  }

  lemma {:induction false} BeforeAnything(b: BusState, now: Time, s: seq<Event>, m: Manifest)
    ensures Before(b, now, s, m, 0) == Outcome(b, now, 0, None)
  {
    assert s[..0] == [];
  }

  /** Two different events with one key: loaded the other way round, they are published the other way round. */
  lemma {:induction false} SharedKeyShowsLoadOrder()
    ensures var x, y := Sample("x"), Sample("y");
            var d := Dataset(SampleManifest(0), [x, y]);
            && ValidDataset(d) && OrderingKey(x) == OrderingKey(y)
            && RunResult(Init(1), 0, 0, 1, d).0 != RunResult(Init(1), 0, 0, 1, d.(events := [y, x])).0
  {
    hide RunResult, Solo, OrderingKey, OrderingKeyOf, ValidDataset, ClockError, Before;
    var x, y, m, b := Sample("x"), Sample("y"), SampleManifest(0), Init(1);
    assert x != y by { assert x.body != y.body; }
    PairIsValid(x, y);
    PairRuns(x, y, m, b);
    PairRuns(y, x, m, b);
    BeforeAnything(b, 0, [x, y], m);
    OrderShows(b, 0, [x, y], [y, x], m, 0);
  }

  const CLASS := TypeName("m", "E")

  function InMarket(market: Option<string>): Event {
    Event.Event("e", {CLASS}, market, 0, 0, Some("r"), Absent, Absent, "")
  }

  function Watching(queue: seq<Item>): Sub {
    Sub("c", CLASS, Some("m"), 1, queue, |queue|, false, [], 0, 0)
  }

  /** One subscription to one market, with room for one event, and one event in it. */
  function FullBus(): BusState {
    Run(Init(1), [Subscribe(CLASS, "c", Some("m"), Some(1)), Publish(InMarket(Some("m")), None)])
  }

  lemma {:induction false} SubscribedBusIs()
    ensures Do(Init(1), Subscribe(CLASS, "c", Some("m"), Some(1))) == BusState([Watching([])], false, 1, [], 0, 0)
  {
    assert Trimmed("c") && !Registered([], "c");
  }

  lemma {:induction false} FillingIt(b: BusState)
    requires b.subs == [Watching([])] && !b.closed
    ensures var c := DoPublish(b, InMarket(Some("m")), None).0;
            c.subs == [Watching([Real(InMarket(Some("m")))])] && !c.closed
  {
    var e := InMarket(Some("m"));
    var p := Published(e, Some("m"));
    assert Receives(b.subs[0], p) && !SomeFull(b.subs, p);
    assert Deliver(Watching([]), e) == Watching([Real(e)]);
  }

  lemma {:induction false} FullBusIs()
    ensures FullBus().subs == [Watching([Real(InMarket(Some("m")))])] && !FullBus().closed
  {
    hide DoPublish, DoSubscribe;
    var s, p := Subscribe(CLASS, "c", Some("m"), Some(1)), Publish(InMarket(Some("m")), None);
    assert [s, p][..1] == [s] && [s][..0] == [];
    assert Run(Init(1), [s]) == Do(Init(1), s);
    SubscribedBusIs();
    FillingIt(Do(Init(1), s));
  }

  /** The full queue refuses the event of its market, and lets the other one pass. */
  lemma {:induction false} FullBusRefuses(b: BusState)
    requires b.subs == FullBus().subs && !b.closed
    ensures DoPublish(b, InMarket(Some("m")), None).1.Err?
    ensures DoPublish(b, InMarket(None), None).1.Ok? && DoPublish(b, InMarket(None), None).0.subs == b.subs
    ensures !DoPublish(b, InMarket(None), None).0.closed
  {
    FullBusIs();
    var e := InMarket(Some("m"));
    assert Receives(b.subs[0], Published(e, e.marketId)) && Full(b.subs[0]);
  }

  /**
   Two events with one key, of which a full queue refuses the first: loaded so, the run stops at its first event;
   loaded the other way round, it publishes one.
   */
  lemma {:induction false} FullQueueShowsLoadOrder()
    ensures var x, y := InMarket(Some("m")), InMarket(None);
            var d := Dataset(SampleManifest(0), [x, y]);
            && ValidDataset(d) && OrderingKey(x) == OrderingKey(y)
            && RunResult(FullBus(), 0, 0, 1, d).2 == Err(PublishFailed(0))
            && RunResult(FullBus(), 0, 0, 1, d.(events := [y, x])).2 == Err(PublishFailed(1))
  {
    hide RunResult, Solo, FullBus, DoPublish, OrderingKey, OrderingKeyOf, ValidDataset, ClockError;
    var x, y, m, b := InMarket(Some("m")), InMarket(None), SampleManifest(0), FullBus();
    PairIsValid(x, y);
    PairRuns(x, y, m, b);
    PairRuns(y, x, m, b);
    FullBusIs();
    FullBusRefuses(b);
    SoloUnfolds(b, 0, [x, y], m, 0);
    SoloUnfolds(b, 0, [y, x], m, 0);
    var c := DoPublish(b, y, None).0;
    FullBusRefuses(c);
    assert [y, x][1..] == [x];
    SoloUnfolds(c, 0, [x], m, 1);
  }
}
