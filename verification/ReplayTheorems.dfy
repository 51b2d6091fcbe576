/** What a replay run guarantees. */
module ReplayTheorems {
  import opened Common
  import opened Sequences
  import opened Sorting
  import opened Keys
  import opened BusModel
  import opened BusSafety
  import opened Replay

  /** The steps of other tasks publish nothing. */
  predicate Silent(steps: seq<Step>) {
    forall i :: 0 <= i < |steps| ==> !steps[i].Publish?
  }

  predicate AllSilent(others: seq<seq<Step>>) {
    forall i :: 0 <= i < |others| ==> Silent(others[i])
  }

  function Publications(events: seq<Event>): (r: seq<Published>)
    ensures |r| == |events| && forall i :: 0 <= i < |r| ==> r[i] == Published(events[i], events[i].marketId)
  {
    seq(|events|, i requires 0 <= i < |events| => Published(events[i], events[i].marketId))
  }

  lemma {:induction false} SilentKeepsLog(b: BusState, steps: seq<Step>)
    requires Silent(steps)
    ensures Run(b, steps).log == b.log
  {
    if steps != [] {
      SilentKeepsLog(b, steps[..|steps| - 1]);
      assert !steps[|steps| - 1].Publish?;
    }
  }

  // ----- publications

  lemma {:induction false} OneMorePublished(e: Event, events: seq<Event>, k: nat, log: seq<Published>)
    requires events != [] && events[0] == e && 1 <= k <= |events|
    ensures log + [Published(e, e.marketId)] + Publications(events[1..][..k - 1]) == log + Publications(events[..k])
  {
    assert Publications(events[..k]) == [Published(e, e.marketId)] + Publications(events[1..][..k - 1]);
  }

  lemma NonePublished(events: seq<Event>, log: seq<Published>)
    ensures log + Publications(events[..0]) == log
  {
    assert Publications(events[..0]) == [];
  }

  /** With no publications by others, the log grows by a prefix of the ordered events and nothing else. */
  lemma {:induction false} SilentDrivePublishes(b: BusState, now: Time, events: seq<Event>, m: Manifest, others: seq<seq<Step>>, done: nat)
    requires |others| == |events| && AllSilent(others)
    ensures var out := Drive(b, now, events, m, others, done);
            && done <= out.processed <= done + |events|
            && out.bus.log == b.log + Publications(events[..out.processed - done])
    decreases |events|
  {
    hide Run, Publications, ClockError;
    NonePublished(events, b.log);
    if events != [] {
      var e := events[0];
      var c := Run(b, others[0]);
      SilentKeepsLog(b, others[0]);
      PublishAllOrNothing(c, e, None);
      var (p, r) := DoPublish(c, e, None);
      hide DoPublish, Silent;
      if ClockError(now, m, e).None? && r.Ok? {
        SilentDrivePublishes(p, e.occurredAt, events[1..], m, others[1..], done + 1);
        OneMorePublished(e, events, Drive(p, e.occurredAt, events[1..], m, others[1..], done + 1).processed - done, b.log);
      }
    }
  }

  lemma {:induction false} RunExtendsLog(b: BusState, steps: seq<Step>)
    ensures b.log <= Run(b, steps).log
  {
    if steps != [] {
      RunExtendsLog(b, steps[..|steps| - 1]);
    }
  }

  lemma {:induction false} DriveCounts(b: BusState, now: Time, events: seq<Event>, m: Manifest, others: seq<seq<Step>>, done: nat)
    requires |others| == |events|
    ensures var out := Drive(b, now, events, m, others, done);
            && done <= out.processed <= done + |events|
            && (out.error.None? <==> out.processed == done + |events|)
    decreases |events|
  {
    hide Run, DoPublish, ClockError;
    if events != [] {
      var e := events[0];
      DriveCounts(DoPublish(Run(b, others[0]), e, None).0, e.occurredAt, events[1..], m, others[1..], done + 1);
    }
  }

  /** One more publication in front, behind whatever the other tasks published first. */
  lemma {:induction false} EmbedsStep(e: Event, prefix: seq<Event>, rest: seq<Event>, before: seq<Published>, mid: seq<Published>, after: seq<Published>)
    requires prefix == [e] + rest && before <= mid && mid + [Published(e, e.marketId)] <= after
    requires Embeds(Publications(rest), after[|mid| + 1..])
    ensures Embeds(Publications(prefix), after[|before|..])
  {
    hide Embeds;
    var x, u, v := Published(e, e.marketId), Publications(rest), after[|mid| + 1..];
    EmbedsHead(x, u, v);
    EmbedsBehind([x] + u, mid[|before|..], [x] + v);
    assert Publications(prefix) == [x] + u;
    assert after == mid + [x] + v;
    assert after[|before|..] == mid[|before|..] + ([x] + v);
  }

  /** Whatever other tasks publish meanwhile, the published prefix appears in the log in its order. */
  lemma {:induction false} DriveEmbeds(b: BusState, now: Time, events: seq<Event>, m: Manifest, others: seq<seq<Step>>, done: nat)
    requires |others| == |events|
    ensures var out := Drive(b, now, events, m, others, done);
            && done <= out.processed <= done + |events|
            && b.log <= out.bus.log
            && Embeds(Publications(events[..out.processed - done]), out.bus.log[|b.log|..])
    decreases |events|
  {
    hide Run, ClockError, Publications;
    DriveCounts(b, now, events, m, others, done);
    NothingEmbeds(events);
    if events != [] {
      var e := events[0];
      var c := Run(b, others[0]);
      RunExtendsLog(b, others[0]);
      PublishAllOrNothing(c, e, None);
      var (p, r) := DoPublish(c, e, None);
      hide DoPublish, Embeds;
      if ClockError(now, m, e).None? && r.Ok? {
        var rest := Drive(p, e.occurredAt, events[1..], m, others[1..], done + 1);
        DriveCounts(p, e.occurredAt, events[1..], m, others[1..], done + 1);
        DriveEmbeds(p, e.occurredAt, events[1..], m, others[1..], done + 1);
        var k := rest.processed - done;
        assert events[..k] == [e] + events[1..][..k - 1];
        EmbedsStep(e, events[..k], events[1..][..k - 1], b.log, c.log, rest.bus.log);
      }
    }
  }

  lemma NothingEmbeds(events: seq<Event>)
    ensures forall log: seq<Published> :: Embeds(Publications(events[..0]), log)
  {
    assert Publications(events[..0]) == [];
  }

  /**
   The run publishes a prefix of the ordered events, and all of them exactly when it ends without an error. Other tasks
   may publish in between; if none does, the log grows by that prefix and nothing else.
   */
  lemma {:induction false} DrivePublishesPrefix(b: BusState, now: Time, events: seq<Event>, m: Manifest, others: seq<seq<Step>>, done: nat)
    requires |others| == |events|
    ensures var out := Drive(b, now, events, m, others, done);
            && done <= out.processed <= done + |events|
            && (out.error.None? <==> out.processed == done + |events|)
            && b.log <= out.bus.log
            && Embeds(Publications(events[..out.processed - done]), out.bus.log[|b.log|..])
            && (AllSilent(others) ==> out.bus.log == b.log + Publications(events[..out.processed - done]))
  {
    hide Drive;
    DriveCounts(b, now, events, m, others, done);
    DriveEmbeds(b, now, events, m, others, done);
    if AllSilent(others) {
      SilentDrivePublishes(b, now, events, m, others, done);
    }
  }

  // ----- the clock

  /** The clock goes to each published event in turn: never backward, never out of the window. */
  lemma {:induction false} ClockNeverTurnsBack(b: BusState, now: Time, events: seq<Event>, m: Manifest, others: seq<seq<Step>>, done: nat)
    requires |others| == |events| && m.startsAt <= now <= m.endsAt
    ensures var out := Drive(b, now, events, m, others, done);
            && done <= out.processed <= done + |events|
            && now <= out.now <= m.endsAt
            && (forall i :: 0 <= i < out.processed - done ==> now <= events[i].occurredAt <= out.now)
            && (forall i, j :: 0 <= i < j < out.processed - done ==> events[i].occurredAt <= events[j].occurredAt)
    decreases |events|
  {
    hide Run, DoPublish;
    if events != [] {
      var e := events[0];
      var (p, r) := DoPublish(Run(b, others[0]), e, None);
      if ClockError(now, m, e).None? && r.Ok? {
        ClockNeverTurnsBack(p, e.occurredAt, events[1..], m, others[1..], done + 1);
        var out := Drive(b, now, events, m, others, done);
        forall i, j | 0 <= i < j < out.processed - done
          ensures events[i].occurredAt <= events[j].occurredAt
        {
          assert events[1..][j - 1] == events[j];
          assert i > 0 ==> events[1..][i - 1] == events[i];
        }
        forall i | 0 <= i < out.processed - done
          ensures now <= events[i].occurredAt <= out.now
        {
          assert i > 0 ==> events[1..][i - 1] == events[i];
        }
      }
    }
  }

  /** Where the clock stands when the run ends: at the last event it was moved to. */
  lemma {:induction false} ClockEndsAt(b: BusState, now: Time, events: seq<Event>, m: Manifest, others: seq<seq<Step>>, done: nat)
    requires |others| == |events|
    ensures var out := Drive(b, now, events, m, others, done);
            && done <= out.processed <= done + |events|
            && (out.error.None? ==> out.processed == done + |events|)
            && (out.error.None? ==> out.now == if events == [] then now else events[|events| - 1].occurredAt)
            && (out.error.Some? && out.error.value.PublishFailed? ==>
                  out.processed < done + |events| && out.now == events[out.processed - done].occurredAt
                  && out.error.value.processed == out.processed)
    decreases |events|
  {
    hide Run, DoPublish;
    if events != [] {
      var e := events[0];
      ClockEndsAt(DoPublish(Run(b, others[0]), e, None).0, e.occurredAt, events[1..], m, others[1..], done + 1);
    }
  }

  predicate InTimeOrder(events: seq<Event>) {
    forall i, j :: 0 <= i < j < |events| ==> events[i].occurredAt <= events[j].occurredAt
  }

  predicate InWindow(events: seq<Event>, m: Manifest) {
    forall i :: 0 <= i < |events| ==>
      events[i].replaySessionId == Some(m.sessionId) && m.startsAt <= events[i].occurredAt <= m.endsAt
  }

  predicate StuckOnClock(error: Option<ReplayError>) {
    error.Some? && !error.value.PublishFailed?
  }

  lemma {:induction false} TimeOrderNeverSticks(b: BusState, now: Time, events: seq<Event>, m: Manifest, others: seq<seq<Step>>, done: nat)
    requires |others| == |events| && InTimeOrder(events) && InWindow(events, m)
    requires events != [] ==> now <= events[0].occurredAt
    ensures !StuckOnClock(Drive(b, now, events, m, others, done).error)
    decreases |events|
  {
    hide Run, DoPublish;
    if events != [] {
      var (p, r) := DoPublish(Run(b, others[0]), events[0], None);
      if r.Ok? {
        TimeOrderNeverSticks(p, events[0].occurredAt, events[1..], m, others[1..], done + 1);
      }
    }
  }

  lemma {:induction false} FirstKeyErrorNone(events: seq<Event>)
    ensures FirstKeyError(events).None? <==> forall i :: 0 <= i < |events| ==> OrderingKeyOf(events[i]).Ok?
  {
    if events != [] {
      FirstKeyErrorNone(events[1..]);
      if FirstKeyError(events).None? {
        forall i | 0 <= i < |events|
          ensures OrderingKeyOf(events[i]).Ok?
        {
          assert i > 0 ==> events[1..][i - 1] == events[i];
        }
      } else if OrderingKeyOf(events[0]).Ok? {
        var i :| 0 <= i < |events[1..]| && OrderingKeyOf(events[1..][i]).Err?;
        assert events[i + 1] == events[1..][i];
      }
    }
  }

  /** The error of the sort is that of the first event, in the order of loading, that gives no key. */
  lemma {:induction false} FirstKeyErrorIsFirst(events: seq<Event>)
    requires FirstKeyError(events).Some?
    ensures exists i :: 0 <= i < |events| && OrderingKeyOf(events[i]) == Err(FirstKeyError(events).value)
                        && forall j :: 0 <= j < i ==> OrderingKeyOf(events[j]).Ok?
  {
    hide OrderingKeyOf;
    if OrderingKeyOf(events[0]).Ok? {
      FirstKeyErrorIsFirst(events[1..]);
      var i :| 0 <= i < |events[1..]| && OrderingKeyOf(events[1..][i]) == Err(FirstKeyError(events).value)
               && forall j :: 0 <= j < i ==> OrderingKeyOf(events[1..][j]).Ok?;
      forall j | 0 <= j < i + 1
        ensures OrderingKeyOf(events[j]).Ok?
      {
        assert j > 0 ==> events[1..][j - 1] == events[j];
      }
      assert events[i + 1] == events[1..][i];
    }
  }

  lemma {:induction false} KeyOrderIsTimeOrder(x: Event, y: Event)
    requires OrderingKeyOf(x).Ok? && OrderingKeyOf(y).Ok? && KeyLe(OrderingKey(x), OrderingKey(y))
    ensures x.occurredAt <= y.occurredAt
  {
    var a, b := OrderingKey(x), OrderingKey(y);
    assert a[0] == Int(x.occurredAt) && b[0] == Int(y.occurredAt);
    assert AtomLe(a[0], b[0]);
  }

  /** When an event gives no key, and why: its sequence is looked at first. */
  lemma KeyFailsIff(e: Event)
    ensures var badSequence := !e.exchangeSequence.Absent? && !(e.exchangeSequence.IntValue? && e.exchangeSequence.n >= 0);
            var badPartition := !e.sourcePartition.Absent? && !(e.sourcePartition.StrValue? && Trimmed(e.sourcePartition.text));
            && (badSequence ==> OrderingKeyOf(e) == Err(SequenceInvalid))
            && (!badSequence && badPartition ==> OrderingKeyOf(e) == Err(PartitionInvalid))
            && (!badSequence && !badPartition ==> OrderingKeyOf(e).Ok?)
  {
  }

  /** The text that a missing partition stands for is empty. */
  function PartitionText(e: Event): string {
    if e.sourcePartition.StrValue? then e.sourcePartition.text else ""
  }

  /**
   The order of a replay, written out: by time of occurrence; then by exchange sequence, events without one last; then by
   time of receipt, by partition and by id.
   */
  predicate NotAfter(x: Event, y: Event) {
    || x.occurredAt < y.occurredAt
    || (x.occurredAt == y.occurredAt &&
        (|| (x.exchangeSequence.IntValue? && y.exchangeSequence.Absent?)
         || (x.exchangeSequence.IntValue? && y.exchangeSequence.IntValue? && x.exchangeSequence.n < y.exchangeSequence.n)
         || (x.exchangeSequence == y.exchangeSequence &&
             (|| x.receivedAt < y.receivedAt
              || (x.receivedAt == y.receivedAt &&
                  (|| (PartitionText(x) != PartitionText(y) && StrLe(PartitionText(x), PartitionText(y)))
                   || (PartitionText(x) == PartitionText(y) && StrLe(x.eventId, y.eventId))))))))
  }

  /** The sequence part of the key: a present number before a missing one. */
  function SequencePart(e: Event): (int, int) {
    if e.exchangeSequence.IntValue? then (0, e.exchangeSequence.n) else (1, 0)
  }

  lemma KeyParts(e: Event)
    requires OrderingKeyOf(e).Ok?
    ensures OrderingKey(e) == [Int(e.occurredAt), Int(SequencePart(e).0), Int(SequencePart(e).1), Int(e.receivedAt),
                               Str(PartitionText(e)), Str(e.eventId)]
    ensures e.exchangeSequence.IntValue? || e.exchangeSequence.Absent?
  {
  }

  lemma {:induction false} KeyOrderIs(x: Event, y: Event)
    requires OrderingKeyOf(x).Ok? && OrderingKeyOf(y).Ok?
    ensures KeyLe(OrderingKey(x), OrderingKey(y)) <==> NotAfter(x, y)
  {
    KeyParts(x);
    KeyParts(y);
    SixParts(OrderingKey(x), OrderingKey(y));
    StrTotal(x.eventId, x.eventId);
    StrTotal(PartitionText(x), PartitionText(x));
    hide OrderingKeyOf, OrderingKey, KeyLe, StrLe, PartitionText;
  }

  /** The sorted events are in the order written out, all of them and no others. */
  lemma {:induction false} SortedIsInOrder(events: seq<Event>)
    requires SortEvents(events).Ok?
    ensures var s := SortEvents(events).value;
            multiset(s) == multiset(events) && forall i, j :: 0 <= i < j < |s| ==> NotAfter(s[i], s[j])
  {
    hide OrderingKeyOf, OrderingKey, KeyLe, Sorted, NotAfter;
    var s := SortEvents(events).value;
    FirstKeyErrorNone(events);
    SortedSorts(OrderingKey, events);
    forall i, j | 0 <= i < j < |s|
      ensures NotAfter(s[i], s[j])
    {
      MembersSort(events, i);
      MembersSort(events, j);
      KeyOrderIs(s[i], s[j]);
    }
  }

  lemma {:induction false} SortedIsTimeOrdered(events: seq<Event>)
    requires SortEvents(events).Ok?
    ensures InTimeOrder(SortEvents(events).value)
  {
    hide OrderingKeyOf, OrderingKey, KeyLe, Sorted;
    var sorted := SortEvents(events).value;
    FirstKeyErrorNone(events);
    SortedSorts(OrderingKey, events);
    forall i, j | 0 <= i < j < |sorted|
      ensures sorted[i].occurredAt <= sorted[j].occurredAt
    {
      MembersSort(events, i);
      MembersSort(events, j);
      KeyOrderIsTimeOrder(sorted[i], sorted[j]);
    }
  }

  lemma {:induction false} MembersSort(events: seq<Event>, i: nat)
    requires i < |Sorted(OrderingKey, events)|
    ensures Sorted(OrderingKey, events)[i] in events
  {
    SortedSorts(OrderingKey, events);
    assert Sorted(OrderingKey, events)[i] in multiset(Sorted(OrderingKey, events));
  }

  lemma {:induction false} SortedStaysInWindow(d: RawDataset)
    requires ValidDataset(d) && SortEvents(d.events).Ok?
    ensures InWindow(SortEvents(d.events).value, d.manifest) && |SortEvents(d.events).value| == |d.events|
  {
    var sorted := SortEvents(d.events).value;
    SortedSorts(OrderingKey, d.events);
    forall i | 0 <= i < |sorted|
      ensures sorted[i].replaySessionId == Some(d.manifest.sessionId)
      ensures d.manifest.startsAt <= sorted[i].occurredAt <= d.manifest.endsAt
    {
      MembersSort(d.events, i);
      var j :| 0 <= j < |d.events| && d.events[j] == sorted[i];
    }
  }

  /**
   A valid dataset sticks on the clock exactly when the clock has already passed its first event; from a fresh clock it
   never does.
   */
  lemma {:induction false} ClockErrorIff(d: RawDataset, b: BusState, now: Time, others: seq<seq<Step>>)
    requires ValidDataset(d) && SortEvents(d.events).Ok? && |others| == |SortEvents(d.events).value|
    ensures var sorted := SortEvents(d.events).value;
            && sorted != []
            && (StuckOnClock(Drive(b, now, sorted, d.manifest, others, 0).error) <==> sorted[0].occurredAt < now)
            && (now == d.manifest.startsAt ==> !StuckOnClock(Drive(b, now, sorted, d.manifest, others, 0).error))
  {
    hide Run, DoPublish;
    var sorted := SortEvents(d.events).value;
    SortedIsTimeOrdered(d.events);
    SortedStaysInWindow(d);
    if now <= sorted[0].occurredAt {
      TimeOrderNeverSticks(b, now, sorted, d.manifest, others, 0);
    }
  }

  // ----- the order of loading

  lemma {:induction false} KeyErrorsForgetOrder(s: seq<Event>, t: seq<Event>)
    requires multiset(s) == multiset(t) && FirstKeyError(s).None?
    ensures FirstKeyError(t).None?
  {
    FirstKeyErrorNone(s);
    FirstKeyErrorNone(t);
    forall i | 0 <= i < |t|
      ensures OrderingKeyOf(t[i]).Ok?
    {
      assert t[i] in multiset(t);
      assert t[i] in s;
      var j :| 0 <= j < |s| && s[j] == t[i];
    }
  }

  /** Two datasets with the same events in another order replay alike, as long as no two different events share a key. */
  lemma {:induction false} LoadOrderIsIrrelevant(d: RawDataset, events: seq<Event>, b: BusState, now: Time, startsAt: Time, endsAt: Time)
    requires multiset(d.events) == multiset(events) && FirstKeyError(d.events).None?
    requires KeyDetermines(OrderingKey, d.events)
    ensures RunResult(b, now, startsAt, endsAt, d) == RunResult(b, now, startsAt, endsAt, d.(events := events))
  {
    hide Drive, CheckInputs;
    KeyErrorsForgetOrder(d.events, events);
    SortedOfPermutation(OrderingKey, d.events, events);
  }

  // ----- subscribers

  lemma {:induction false} DriveKeepsBus(b: BusState, now: Time, events: seq<Event>, m: Manifest, others: seq<seq<Step>>, done: nat, i: nat)
    requires |others| == |events| && Inv(b) && i < |b.subs|
    ensures var c := Drive(b, now, events, m, others, done).bus;
            && Inv(c) && i < |c.subs|
            && c.subs[i].eventType == b.subs[i].eventType && c.subs[i].partition == b.subs[i].partition
            && c.subs[i].born == b.subs[i].born
            && (b.subs[i].closed ==> c.subs[i].closed)
            && b.log <= c.log
    decreases |events|
  {
    hide Inv;
    if events != [] && ClockError(now, m, events[0]).None? {
      var c := Run(b, others[0]);
      RunKeepsInv(b, others[0]);
      RunKeepsIdentity(b, others[0], i);
      hide Run;
      PublishKeepsInv(c, events[0], None);
      StepKeepsIdentity(c, Publish(events[0], None), i);
      var (p, r) := DoPublish(c, events[0], None);
      hide DoPublish;
      if r.Ok? {
        DriveKeepsBus(p, events[0].occurredAt, events[1..], m, others[1..], done + 1, i);
      }
    }
  }

  /**
   Whatever other tasks do meanwhile, a subscription that is open when the run ends has seen, beyond what it had seen
   before, exactly the matching part of what was published since, in order, and the published prefix is among it. If
   nobody else published, it has seen exactly the matching part of that prefix.
   */
  lemma {:induction false} SubscriberSeesReplay(b: BusState, now: Time, events: seq<Event>, m: Manifest, others: seq<seq<Step>>, i: nat)
    requires |others| == |events| && Inv(b) && i < |b.subs|
    requires var c := Drive(b, now, events, m, others, 0).bus;
             i < |c.subs| && !c.subs[i].closed
    ensures var out := Drive(b, now, events, m, others, 0);
            && out.processed <= |events| && b.log <= out.bus.log
            && Seen(out.bus.subs[i]) == Seen(b.subs[i]) + Due(b.subs[i], out.bus.log[|b.log|..])
            && Embeds(Publications(events[..out.processed]), out.bus.log[|b.log|..])
            && (AllSilent(others) ==>
                  Seen(out.bus.subs[i]) == Seen(b.subs[i]) + Due(b.subs[i], Publications(events[..out.processed])))
  {
    hide Drive, Exact;
    DriveKeepsBus(b, now, events, m, others, 0, i);
    DrivePublishesPrefix(b, now, events, m, others, 0);
    var out := Drive(b, now, events, m, others, 0);
    WindowGrows(b.subs[i], b.log, out.bus.subs[i], out.bus.log);
    if AllSilent(others) {
      assert out.bus.log[|b.log|..] == Publications(events[..out.processed]);
    }
  }

  lemma {:induction false} QuietIsSilent(n: nat)
    ensures AllSilent(Quiet(n))
  {
  }
}
