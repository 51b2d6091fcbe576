/** What the bus guarantees over every interleaving. */
module BusSafety {
  import opened Common
  import opened BusModel

  // ----- queues and logs

  lemma {:induction false} QueuedSnoc(queue: seq<Item>, item: Item)
    ensures Queued(queue + [item]) == Queued(queue) + (if item.Real? then [item.event] else [])
  {
    assert (queue + [item])[..|queue|] == queue;
  }

  lemma {:induction false} QueuedCons(queue: seq<Item>)
    requires queue != []
    ensures Queued(queue) == (if queue[0].Real? then [queue[0].event] else []) + Queued(queue[1..])
  {
    var front := queue[..|queue| - 1];
    if front == [] {
      assert queue[1..] == [] && queue == [queue[0]];
      QueuedSnoc([], queue[0]);
    } else {
      QueuedCons(front);
      assert queue[1..][..|queue| - 2] == front[1..];
    }
  }

  lemma {:induction false} QueuedLength(queue: seq<Item>)
    ensures |Queued(queue)| <= |queue|
    ensures (forall i :: 0 <= i < |queue| ==> queue[i].Real?) ==> |Queued(queue)| == |queue|
  {
    if queue != [] {
      QueuedLength(queue[..|queue| - 1]);
    }
  }

  lemma {:induction false} DueSnoc(s: Sub, log: seq<Published>, p: Published)
    ensures Due(s, log + [p]) == Due(s, log) + (if Matches(s, p) then [p.event] else [])
  {
    assert (log + [p])[..|log|] == log;
  }

  /** Only the type and the partition decide what is due. */
  lemma {:induction false} DueDepends(s: Sub, t: Sub, log: seq<Published>)
    requires s.eventType == t.eventType && s.partition == t.partition
    ensures Due(s, log) == Due(t, log)
  {
    if log != [] {
      DueDepends(s, t, log[..|log| - 1]);
    }
  }

  // ----- each operation on one subscription

  lemma {:induction false} DeliverKeepsSane(s: Sub, e: Event)
    requires Sane(s) && !s.closed && !Full(s)
    ensures Sane(Deliver(s, e)) && |s.queue| <= s.size
  {
    QueuedSnoc(s.queue, Real(e));
    QueuedLength(s.queue);
  }

  lemma {:induction false} TakeKeepsSane(s: Sub)
    requires Sane(s)
    ensures Sane(TakeNext(s).0)
  {
    if s.queue != [] {
      QueuedCons(s.queue);
    }
  }

  /** The close marker always fits: an open queue holds at most `size` events in `size + 1` slots. */
  lemma {:induction false} CloseKeepsSane(s: Sub, at: nat)
    requires Sane(s)
    ensures Sane(Closed(s, at))
    ensures !s.closed ==> |s.queue| <= s.size
  {
    QueuedSnoc(s.queue, Sentinel);
    QueuedLength(s.queue);
  }

  lemma {:induction false} DeliverKeepsExact(s: Sub, log: seq<Published>, p: Published)
    requires Exact(s, log) && Receives(s, p) && !Full(s)
    ensures Exact(Deliver(s, p.event), log + [p])
  {
    var t := Deliver(s, p.event);
    DeliverKeepsSane(s, p.event);
    QueuedSnoc(s.queue, Real(p.event));
    assert Lifetime(t, log + [p]) == Lifetime(s, log) + [p];
    DueSnoc(s, Lifetime(s, log), p);
    DueDepends(s, t, Lifetime(t, log + [p]));
    assert s.consumed + (Queued(s.queue) + [p.event]) == (s.consumed + Queued(s.queue)) + [p.event];
  }

  lemma {:induction false} OthersKeepExact(s: Sub, log: seq<Published>, p: Published)
    requires Exact(s, log) && !Receives(s, p)
    ensures Exact(s, log + [p])
  {
    if s.closed {
      assert Lifetime(s, log + [p]) == Lifetime(s, log);
    } else {
      assert Lifetime(s, log + [p]) == Lifetime(s, log) + [p];
      DueSnoc(s, Lifetime(s, log), p);
    }
  }

  lemma {:induction false} TakeKeepsExact(s: Sub, log: seq<Published>)
    requires Exact(s, log)
    ensures Exact(TakeNext(s).0, log)
  {
    if s.queue != [] {
      var t := TakeNext(s).0;
      TakeKeepsSane(s);
      QueuedCons(s.queue);
      DueDepends(s, t, Lifetime(s, log));
      if s.queue[0].Real? {
        assert s.consumed + ([s.queue[0].event] + Queued(t.queue)) == t.consumed + Queued(t.queue);
      } else {
        assert s.consumed + ([] + Queued(t.queue)) == t.consumed + Queued(t.queue);
      }
    }
  }

  lemma {:induction false} CloseKeepsExact(s: Sub, log: seq<Published>)
    requires Exact(s, log)
    ensures Exact(Closed(s, |log|), log)
  {
    if !s.closed {
      var t := Closed(s, |log|);
      CloseKeepsSane(s, |log|);
      QueuedSnoc(s.queue, Sentinel);
      assert Queued(s.queue) + [] == Queued(s.queue);
      assert Lifetime(t, log) == Lifetime(s, log);
      DueDepends(s, t, Lifetime(s, log));
    }
  }

  // ----- the delivery counter

  function Weight(s: Sub): int {
    |s.consumed| + s.pending
  }

  lemma {:induction false} TotalUpdate(subs: seq<Sub>, i: nat, s: Sub)
    requires i < |subs|
    ensures Total(subs[i := s]) == Total(subs) - Weight(subs[i]) + Weight(s)
  {
    var n := |subs| - 1;
    if i == n {
      assert subs[i := s][..n] == subs[..n];
    } else {
      TotalUpdate(subs[..n], i, s);
      assert subs[i := s][..n] == subs[..n][i := s];
    }
  }

  lemma {:induction false} TotalSame(subs: seq<Sub>, after: seq<Sub>)
    requires |subs| == |after| && forall i :: 0 <= i < |subs| ==> Weight(subs[i]) == Weight(after[i])
    ensures Total(after) == Total(subs)
  {
    if subs != [] {
      TotalSame(subs[..|subs| - 1], after[..|after| - 1]);
    }
  }

  lemma {:induction false} TotalDelivered(subs: seq<Sub>, p: Published)
    ensures Total(DeliverAll(subs, p)) == Total(subs) + Receivers(subs, p)
  {
    if subs != [] {
      var n := |subs| - 1;
      TotalDelivered(subs[..n], p);
      assert DeliverAll(subs, p)[..n] == DeliverAll(subs[..n], p);
    }
  }

  // ----- every step

  lemma {:induction false} PublishKeepsInv(b: BusState, e: Event, key: Option<string>)
    requires Inv(b)
    ensures Inv(DoPublish(b, e, key).0)
  {
    hide Exact, Total;
    var p := Published(e, EffectiveKey(e, key));
    if !b.closed && !SomeFull(b.subs, p) {
      var c := DoPublish(b, e, key).0;
      TotalDelivered(b.subs, p);
      forall i | 0 <= i < |c.subs|
        ensures Exact(c.subs[i], c.log)
      {
        if Receives(b.subs[i], p) {
          DeliverKeepsExact(b.subs[i], b.log, p);
        } else {
          OthersKeepExact(b.subs[i], b.log, p);
        }
      }
    }
  }

  lemma {:induction false} SubscribeKeepsInv(b: BusState, t: TypeName, n: string, q: Option<string>, size: Option<int>)
    requires Inv(b)
    ensures Inv(DoSubscribe(b, t, n, q, size).0)
  {
    var c := DoSubscribe(b, t, n, q, size).0;
    if c != b {
      var s := c.subs[|b.subs|];
      assert c.subs[..|b.subs|] == b.subs;
      assert Lifetime(s, c.log) == [];
      assert Exact(s, c.log);
    }
  }

  lemma {:induction false} UpdateKeepsInv(b: BusState, i: nat, s: Sub)
    requires Inv(b) && i < |b.subs| && Exact(s, b.log)
    requires s.name == b.subs[i].name && Weight(s) == Weight(b.subs[i]) && (b.subs[i].closed ==> s.closed)
    ensures Inv(b.(subs := b.subs[i := s]))
  {
    hide Exact, Total;
    TotalUpdate(b.subs, i, s);
  }

  lemma {:induction false} CloseBusKeepsInv(b: BusState)
    requires Inv(b)
    ensures Inv(DoCloseBus(b))
  {
    hide Exact, Total;
    if !b.closed {
      var c := DoCloseBus(b);
      TotalSame(b.subs, c.subs);
      forall i | 0 <= i < |c.subs|
        ensures Exact(c.subs[i], c.log)
      {
        CloseKeepsExact(b.subs[i], b.log);
      }
    }
  }

  lemma {:induction false} StepKeepsInv(b: BusState, step: Step)
    requires Inv(b)
    ensures Inv(Do(b, step))
  {
    match step
    case Publish(e, key) => PublishKeepsInv(b, e, key);
    case Subscribe(t, n, p, q) => SubscribeKeepsInv(b, t, n, p, q);
    case Consume(i) =>
      if i < |b.subs| {
        TakeKeepsExact(b.subs[i], b.log);
        UpdateKeepsInv(b, i, TakeNext(b.subs[i]).0);
      }
    case CloseSub(i) =>
      if i < |b.subs| {
        CloseKeepsExact(b.subs[i], b.log);
        UpdateKeepsInv(b, i, Closed(b.subs[i], |b.log|));
      }
    case CloseBus => CloseBusKeepsInv(b);
  }

  /**
   Over every interleaving of publish, subscribe, consume and close: each subscription has consumed, or still queues,
   exactly the matching events published while it was open, in publication order; its counter is right and its queue never
   overflows; and the delivery counter is the sum of all of it.
   */
  lemma {:induction false} EveryRunKeepsInv(defaultSize: nat, steps: seq<Step>)
    requires defaultSize >= 1
    ensures Inv(Run(Init(defaultSize), steps))
  {
    if steps != [] {
      EveryRunKeepsInv(defaultSize, steps[..|steps| - 1]);
      StepKeepsInv(Run(Init(defaultSize), steps[..|steps| - 1]), steps[|steps| - 1]);
    }
  }

  // ----- publishing

  /** All or nothing: a publication reaches every matching queue, or leaves every queue and the log as they were. */
  lemma {:induction false} PublishAllOrNothing(b: BusState, e: Event, key: Option<string>)
    ensures var (c, r) := DoPublish(b, e, key);
            var p := Published(e, EffectiveKey(e, key));
            && |c.subs| == |b.subs|
            && (r.Err? ==> c.subs == b.subs && c.log == b.log && c.delivered == b.delivered)
            && (r.Ok? ==> c.log == b.log + [p]
                          && forall i :: 0 <= i < |b.subs| ==>
                               c.subs[i].queue == b.subs[i].queue + (if Receives(b.subs[i], p) then [Real(e)] else []))
            && (r.Ok? <==> !b.closed && forall i :: 0 <= i < |b.subs| && Receives(b.subs[i], p) ==> b.subs[i].pending < b.subs[i].size)
  {
    var (c, r) := DoPublish(b, e, key);
    var p := Published(e, EffectiveKey(e, key));
    if r.Ok? {
      forall i | 0 <= i < |b.subs|
        ensures c.subs[i].queue == b.subs[i].queue + (if Receives(b.subs[i], p) then [Real(e)] else [])
      {
        assert b.subs[i].queue + [] == b.subs[i].queue;
      }
    }
  }

  /**
   Which queues a publication reaches: those of open subscriptions to a class of the event, for every partition or for the
   key of the publication, which is the explicit one if there is one and the event's market otherwise.
   */
  lemma {:induction false} PublishReaches(b: BusState, e: Event, key: Option<string>)
    ensures var (c, r) := DoPublish(b, e, key);
            && |c.subs| == |b.subs|
            && (r.Ok? ==>
                  forall i :: 0 <= i < |b.subs| ==>
                    c.subs[i].queue == b.subs[i].queue +
                      if !b.subs[i].closed && b.subs[i].eventType in e.classes
                         && (b.subs[i].partition.None? || b.subs[i].partition == if key.Some? then key else e.marketId)
                      then [Real(e)] else [])
            && (r.Ok? <==>
                  !b.closed
                  && forall i :: 0 <= i < |b.subs| && !b.subs[i].closed && b.subs[i].eventType in e.classes
                                 && (b.subs[i].partition.None? || b.subs[i].partition == if key.Some? then key else e.marketId) ==>
                       b.subs[i].pending < b.subs[i].size)
            && (b.closed ==> r == Err(BusClosed))
            && (r.Err? && !b.closed ==>
                  && r.error.Backpressure?
                  && c == b.(backpressure := b.backpressure + 1)
                  && forall name :: name in r.error.names <==>
                       exists i :: 0 <= i < |b.subs| && !b.subs[i].closed && b.subs[i].eventType in e.classes
                                   && (b.subs[i].partition.None? || b.subs[i].partition == if key.Some? then key else e.marketId)
                                   && b.subs[i].pending >= b.subs[i].size && b.subs[i].name == name)
  {
    PublishAllOrNothing(b, e, key);
    var p := Published(e, EffectiveKey(e, key));
    assert forall i :: 0 <= i < |b.subs| ==>
      (Receives(b.subs[i], p) <==> !b.subs[i].closed && b.subs[i].eventType in e.classes
                                   && (b.subs[i].partition.None? || b.subs[i].partition == if key.Some? then key else e.marketId));
  }

  /** The part of it that speaks of the queues. */
  lemma {:induction false} QueuesReached(b: BusState, e: Event, key: Option<string>)
    requires DoPublish(b, e, key).1.Ok?
    ensures var c := DoPublish(b, e, key).0;
            && |c.subs| == |b.subs|
            && forall i :: 0 <= i < |b.subs| ==>
                 c.subs[i].queue == b.subs[i].queue +
                   if !b.subs[i].closed && b.subs[i].eventType in e.classes
                      && (b.subs[i].partition.None? || b.subs[i].partition == if key.Some? then key else e.marketId)
                   then [Real(e)] else []
  {
    hide DoPublish;
    PublishReaches(b, e, key);
  }

  // ----- where what is seen comes from

  /** Every entry of the log was published by some step, under the explicit key or else the event's market. */
  lemma {:induction false} LogComesFromSteps(defaultSize: nat, steps: seq<Step>, p: Published)
    requires p in Run(Init(defaultSize), steps).log
    ensures exists k :: 0 <= k < |steps| && steps[k].Publish? && steps[k].event == p.event
                        && p.key == if steps[k].partitionKey.Some? then steps[k].partitionKey else p.event.marketId
  {
    var front, last := steps[..|steps| - 1], steps[|steps| - 1];
    if p in Run(Init(defaultSize), front).log {
      LogComesFromSteps(defaultSize, front, p);
      var k :| 0 <= k < |front| && front[k].Publish? && front[k].event == p.event
               && p.key == if front[k].partitionKey.Some? then front[k].partitionKey else p.event.marketId;
      assert steps[k] == front[k];
    }
  }

  lemma {:induction false} DueComesFromLog(s: Sub, log: seq<Published>, e: Event)
    requires e in Due(s, log)
    ensures exists p :: p in log && p.event == e && s.eventType in e.classes && (s.partition.None? || s.partition == p.key)
  {
    var front, last := log[..|log| - 1], log[|log| - 1];
    if e in Due(s, front) {
      DueComesFromLog(s, front, e);
    } else {
      assert last in log;
    }
  }

  /**
   In every run, whatever a subscription has been given was published by some step, is of its type, and, if it asked for a
   partition, carries that key.
   */
  lemma {:induction false} SeenIsAddressed(defaultSize: nat, steps: seq<Step>, i: nat, e: Event)
    requires defaultSize >= 1
    requires var b := Run(Init(defaultSize), steps);
             i < |b.subs| && e in b.subs[i].consumed + Queued(b.subs[i].queue)
    ensures var s := Run(Init(defaultSize), steps).subs[i];
            exists k :: 0 <= k < |steps| && steps[k].Publish? && steps[k].event == e
                        && s.eventType in e.classes
                        && (s.partition.None? || s.partition == if steps[k].partitionKey.Some? then steps[k].partitionKey else e.marketId)
  {
    EveryRunKeepsInv(defaultSize, steps);
    var b := Run(Init(defaultSize), steps);
    var s := b.subs[i];
    assert Exact(s, b.log);
    DueComesFromLog(s, Lifetime(s, b.log), e);
    var p :| p in Lifetime(s, b.log) && p.event == e && s.eventType in e.classes && (s.partition.None? || s.partition == p.key);
    assert p in b.log;
    LogComesFromSteps(defaultSize, steps, p);
  }

  // ----- subscribing and taking

  /** When a subscription is accepted, and what it starts as. */
  lemma {:induction false} SubscribeIff(b: BusState, t: TypeName, n: string, q: Option<string>, size: Option<int>)
    ensures var (c, r) := DoSubscribe(b, t, n, q, size);
            var slots := if size.Some? then size.value else b.defaultSize;
            && (r.Ok? <==>
                  && !b.closed
                  && n != "" && n[0] !in {' ', '\t', '\n', '\r'} && n[|n| - 1] !in {' ', '\t', '\n', '\r'}
                  && (forall i :: 0 <= i < |b.subs| && !b.subs[i].closed ==> b.subs[i].name != n)
                  && slots >= 1)
            && (r.Err? ==> c == b)
            && (r.Ok? ==>
                  && |c.subs| == |b.subs| + 1 && c.subs[..|b.subs|] == b.subs
                  && c == b.(subs := c.subs)
                  && c.subs[|b.subs|] == Sub(n, t, q, slots, [], 0, false, [], |b.log|, 0))
  {
  }

  /** Closing one subscription, or the bus with all of them, puts the marker behind what waits and touches nothing else. */
  lemma {:induction false} ClosingMarks(b: BusState, step: Step)
    requires step.CloseSub? || step.CloseBus?
    ensures var c := Do(b, step);
            && |c.subs| == |b.subs| && c.log == b.log && c.delivered == b.delivered && c.backpressure == b.backpressure
            && c.closed == (b.closed || step.CloseBus?)
            && forall i :: 0 <= i < |b.subs| ==>
                 if !b.subs[i].closed && (if step.CloseSub? then i == step.i else !b.closed)
                 then c.subs[i] == b.subs[i].(closed := true, queue := b.subs[i].queue + [Sentinel], died := |b.log|)
                 else c.subs[i] == b.subs[i]
  {
  }

  /** Taking gives what has waited longest; the end marker ends it, and an empty queue makes the consumer wait. */
  lemma {:induction false} TakeGivesOldest(s: Sub, log: seq<Published>)
    requires Exact(s, log)
    ensures var (t, r) := TakeNext(s);
            var due := Due(s, Lifetime(s, log));
            && (|s.consumed| < |due| ==> r == Got(due[|s.consumed|]) && t.consumed == s.consumed + [due[|s.consumed|]])
            && (|s.consumed| == |due| ==> t.consumed == s.consumed && (r == Stopped || r == WouldBlock))
            && (r == Stopped ==> s.closed)
            && (r == WouldBlock ==> s.queue == [] && t == s)
  {
    if s.queue != [] {
      QueuedCons(s.queue);
      QueuedLength(s.queue[1..]);
    }
  }

  // ----- a subscription over a stretch of a run

  function Seen(s: Sub): seq<Event> {
    s.consumed + Queued(s.queue)
  }

  lemma {:induction false} DueConcat(s: Sub, u: seq<Published>, v: seq<Published>)
    ensures Due(s, u + v) == Due(s, u) + Due(s, v)
  {
    if v == [] {
      assert u + v == u;
      assert Due(s, u) + [] == Due(s, u);
    } else {
      var front, p := v[..|v| - 1], v[|v| - 1];
      DueConcat(s, u, front);
      DueSnoc(s, u + front, p);
      assert u + v == (u + front) + [p];
      assert Due(s, v) == Due(s, front) + (if Matches(s, p) then [p.event] else []);
    }
  }

  lemma {:induction false} StepKeepsIdentity(b: BusState, step: Step, i: nat)
    requires i < |b.subs|
    ensures var c := Do(b, step);
            && i < |c.subs|
            && c.subs[i].eventType == b.subs[i].eventType && c.subs[i].partition == b.subs[i].partition
            && c.subs[i].born == b.subs[i].born
            && (b.subs[i].closed ==> c.subs[i].closed)
            && b.log <= c.log
  {
  }

  lemma {:induction false} RunKeepsIdentity(b: BusState, steps: seq<Step>, i: nat)
    requires i < |b.subs|
    ensures var c := Run(b, steps);
            && i < |c.subs|
            && c.subs[i].eventType == b.subs[i].eventType && c.subs[i].partition == b.subs[i].partition
            && c.subs[i].born == b.subs[i].born
            && (b.subs[i].closed ==> c.subs[i].closed)
            && b.log <= c.log
  {
    hide Do;
    if steps != [] {
      RunKeepsIdentity(b, steps[..|steps| - 1], i);
      StepKeepsIdentity(Run(b, steps[..|steps| - 1]), steps[|steps| - 1], i);
    }
  }

  lemma {:induction false} RunKeepsInv(b: BusState, steps: seq<Step>)
    requires Inv(b)
    ensures Inv(Run(b, steps))
  {
    hide Inv, Do;
    if steps != [] {
      RunKeepsInv(b, steps[..|steps| - 1]);
      StepKeepsInv(Run(b, steps[..|steps| - 1]), steps[|steps| - 1]);
    }
  }

  lemma {:induction false} WindowGrows(s: Sub, before: seq<Published>, t: Sub, after: seq<Published>)
    requires Exact(s, before) && Exact(t, after) && before <= after && !s.closed && !t.closed
    requires t.eventType == s.eventType && t.partition == s.partition && t.born == s.born
    ensures Seen(t) == Seen(s) + Due(s, after[|before|..])
  {
    assert Lifetime(t, after) == Lifetime(s, before) + after[|before|..];
    DueDepends(t, s, Lifetime(t, after));
    DueConcat(s, Lifetime(s, before), after[|before|..]);
  }

  /** Over any stretch of a run that a subscription stays open, it sees exactly the matching part of what was published. */
  lemma {:induction false} OpenSubscriptionSees(b: BusState, steps: seq<Step>, i: nat)
    requires Inv(b) && i < |b.subs|
    requires i < |Run(b, steps).subs| && !Run(b, steps).subs[i].closed
    ensures var c := Run(b, steps);
            && b.log <= c.log
            && Seen(c.subs[i]) == Seen(b.subs[i]) + Due(b.subs[i], c.log[|b.log|..])
  {
    hide Run, Exact;
    RunKeepsInv(b, steps);
    RunKeepsIdentity(b, steps, i);
    WindowGrows(b.subs[i], b.log, Run(b, steps).subs[i], Run(b, steps).log);
  }
}
