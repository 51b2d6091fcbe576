/** The bus and its subscriptions as objects, each method refining one step of the bus model. */
module Bus {
  import opened Common
  import opened Sequences
  import opened Sorting
  import opened BusModel
  import opened BusSafety

  class QueuedEventSubscription {
    const name: string
    const eventType: TypeName
    const partition: Option<string>
    const queueSize: nat
    var queue: seq<Item>
    var pending: int
    var closed: bool
    /** What the consumer has taken, and the publications between which the subscription was open. */
    ghost var consumed: seq<Event>
    ghost var born: nat
    ghost var died: nat

    ghost function View(): Sub
      reads this
    {
      Sub(name, eventType, partition, queueSize, queue, pending, closed, consumed, born, died)
    }

    ghost predicate Valid()
      reads this
    {
      Sane(View())
    }

    constructor (eventType: TypeName, name: string, partition: Option<string>, queueSize: nat, ghost born: nat)
      requires queueSize >= 1
      ensures Valid() && View() == Sub(name, eventType, partition, queueSize, [], 0, false, [], born, 0)
    {
      this.name, this.eventType, this.partition, this.queueSize := name, eventType, partition, queueSize;
      queue, pending, closed := [], 0, false;
      consumed, this.born, died := [], born, 0;
    }

    method PublishNowait(e: Event) returns (r: Result<(), BusError>)
      requires Valid()
      modifies this
      ensures Valid()
      ensures closed ==> r == Err(BusClosed) && View() == old(View())
      ensures !closed && old(Full(View())) ==> r == Err(Backpressure({name})) && View() == old(View())
      ensures !closed && !old(Full(View())) ==> r == Ok(()) && View() == Deliver(old(View()), e)
    {
      if closed {
        return Err(BusClosed);
      }
      if pending >= queueSize {
        return Err(Backpressure({name}));
      }
      DeliverKeepsSane(View(), e);
      assert |queue| < queueSize + 1;
      queue := queue + [Real(e)];
      pending := pending + 1;
      return Ok(());
    }

    /** `__anext__`, with waiting made explicit. */
    method Next() returns (r: NextResult)
      requires Valid()
      modifies this
      ensures Valid()
      ensures (View(), r) == TakeNext(old(View()))
    {
      TakeKeepsSane(View());
      if queue == [] {
        return WouldBlock;
      }
      var item := queue[0];
      queue := queue[1..];
      match item
      case Sentinel =>
        return Stopped;
      case Real(e) =>
        pending := pending - 1;
        consumed := consumed + [e];
        return Got(e);
    }

    /** `close`, without its callback; `first` says whether the callback is due. */
    method Close(ghost at: nat) returns (first: bool)
      requires Valid()
      modifies this
      ensures Valid()
      ensures View() == Closed(old(View()), at)
      ensures first == !old(closed)
    {
      if closed {
        return false;
      }
      CloseKeepsSane(View(), at);
      assert |queue| < queueSize + 1;
      closed := true;
      queue := queue + [Sentinel];
      died := at;
      return true;
    }
  }

  function RouteOf(s: QueuedEventSubscription): Route {
    Route(s.name, s.eventType, s.partition)
  }

  /** The deterministic delivery order sorts by consumer name, then by type, then by partition. */
  function RouteKey(r: Route): Key {
    [Str(r.name), Str(r.eventType.moduleName), Str(r.eventType.qualname), Str(if r.partition.Some? then r.partition.value else "")]
  }

  function OrderKey(s: QueuedEventSubscription): Key {
    RouteKey(RouteOf(s))
  }

  function Ordered(subs: seq<QueuedEventSubscription>, deterministic: bool): seq<QueuedEventSubscription> {
    if deterministic then Sorted(OrderKey, subs) else subs
  }

  predicate DistinctNames(subs: seq<QueuedEventSubscription>) {
    forall i, j :: 0 <= i < j < |subs| ==> subs[i].name != subs[j].name
  }

  /** The subscriptions of a list that match; the list holds open ones only. */
  function Matching(subs: seq<QueuedEventSubscription>, p: Published): seq<QueuedEventSubscription> {
    if subs == [] then [] else (if Selects(RouteOf(subs[0]), p) then [subs[0]] else []) + Matching(subs[1..], p)
  }

  function Names(subs: seq<QueuedEventSubscription>): (r: seq<string>)
    ensures |r| == |subs| && forall i :: 0 <= i < |r| ==> r[i] == subs[i].name
  {
    seq(|subs|, i requires 0 <= i < |subs| => subs[i].name)
  }

  // ----- ordering

  function Routes(subs: seq<QueuedEventSubscription>): seq<Route> {
    Map(RouteOf, subs)
  }

  /** The routes of a list that match. */
  function Chosen(routes: seq<Route>, p: Published): seq<Route> {
    if routes == [] then [] else (if Selects(routes[0], p) then [routes[0]] else []) + Chosen(routes[1..], p)
  }

  lemma {:induction false} MatchingRoutes(subs: seq<QueuedEventSubscription>, p: Published)
    ensures Routes(Matching(subs, p)) == Chosen(Routes(subs), p)
  {
    if subs != [] {
      MatchingRoutes(subs[1..], p);
      assert Routes(subs)[1..] == Routes(subs[1..]);
    }
  }

  lemma {:induction false} NamesDetermine(subs: seq<QueuedEventSubscription>)
    requires DistinctNames(subs)
    ensures KeyDetermines(RouteKey, Routes(subs))
  {
    var routes := Routes(subs);
    forall x, y | x in routes && y in routes
      ensures Distinguishes(RouteKey, x, y)
    {
      if RouteKey(x) == RouteKey(y) {
        assert RouteKey(x)[0] == RouteKey(y)[0];
        var i :| 0 <= i < |routes| && routes[i] == x;
        var j :| 0 <= j < |routes| && routes[j] == y;
        assert subs[i].name == subs[j].name;
      }
    }
  }

  /** The names in delivery order are read off the sorted routes. */
  lemma {:induction false} OrderOfRoutes(subs: seq<QueuedEventSubscription>, p: Published)
    ensures Names(Matching(Ordered(subs, true), p)) == Map((r: Route) => r.name, Chosen(Sorted(RouteKey, Routes(subs)), p))
  {
    assert forall i :: 0 <= i < |subs| ==> SameKey(RouteOf, OrderKey, RouteKey, subs[i]);
    SortedMaps(RouteOf, OrderKey, RouteKey, subs);
    MatchingRoutes(Ordered(subs, true), p);
  }

  /**
   In deterministic mode delivery order does not depend on registration order: two lists of subscriptions, whichever
   objects they hold, that ask for the same routes are served in the same order of names.
   */
  lemma {:induction false} DeliveryForgetsRegistration(a: seq<QueuedEventSubscription>, b: seq<QueuedEventSubscription>, p: Published)
    requires multiset(Routes(a)) == multiset(Routes(b)) && DistinctNames(a)
    ensures Names(Matching(Ordered(a, true), p)) == Names(Matching(Ordered(b, true), p))
  {
    hide Routes, Ordered, Matching, Names, Chosen;
    NamesDetermine(a);
    SortedOfPermutation(RouteKey, Routes(a), Routes(b));
    OrderOfRoutes(a, p);
    OrderOfRoutes(b, p);
  }

  // ----- the order written out

  /** Names in strictly ascending order. */
  predicate Rising(names: seq<string>) {
    forall i, j :: 0 <= i < j < |names| ==> StrLe(names[i], names[j]) && names[i] != names[j]
  }

  lemma {:induction false} ChosenAreMembers(routes: seq<Route>, p: Published)
    ensures forall x :: x in Chosen(routes, p) ==> x in routes
  {
    if routes != [] {
      ChosenAreMembers(routes[1..], p);
    }
  }

  lemma {:induction false} ChosenAscend(routes: seq<Route>, p: Published)
    requires Ascending(RouteKey, routes)
    ensures Ascending(RouteKey, Chosen(routes, p))
  {
    hide RouteKey, KeyLe;
    if routes != [] {
      var tail := routes[1..];
      ChosenAscend(tail, p);
      ChosenAreMembers(tail, p);
      forall i | 0 <= i < |Chosen(tail, p)|
        ensures KeyLe(RouteKey(routes[0]), RouteKey(Chosen(tail, p)[i]))
      {
        assert Chosen(tail, p)[i] in tail;
        var j :| 0 <= j < |tail| && tail[j] == Chosen(tail, p)[i];
        assert routes[j + 1] == tail[j];
      }
    }
  }

  lemma KeysOrderNames(x: Route, y: Route)
    requires KeyLe(RouteKey(x), RouteKey(y))
    ensures StrLe(x.name, y.name)
  {
    assert AtomLe(RouteKey(x)[0], RouteKey(y)[0]);
  }

  lemma {:induction false} MatchingRoutesAscend(subs: seq<QueuedEventSubscription>, p: Published)
    ensures Ascending(RouteKey, Routes(Matching(Ordered(subs, true), p)))
  {
    hide RouteKey, KeyLe, Chosen, Sorted, Matching, Routes;
    SortedSorts(RouteKey, Routes(subs));
    ChosenAscend(Sorted(RouteKey, Routes(subs)), p);
    SortedRoutes(subs);
    MatchingRoutes(Ordered(subs, true), p);
  }

  lemma {:induction false} SortedRoutes(subs: seq<QueuedEventSubscription>)
    ensures Routes(Ordered(subs, true)) == Sorted(RouteKey, Routes(subs))
  {
    assert forall i :: 0 <= i < |subs| ==> SameKey(RouteOf, OrderKey, RouteKey, subs[i]);
    SortedMaps(RouteOf, OrderKey, RouteKey, subs);
  }

  /** In deterministic mode consumers are served in ascending order of their names. */
  lemma {:induction false} ServedByName(subs: seq<QueuedEventSubscription>, p: Published)
    requires DistinctNames(subs) && NoRepeats(subs)
    ensures Rising(Names(Matching(Ordered(subs, true), p)))
  {
    var ordered := Ordered(subs, true);
    var m := Matching(ordered, p);
    OrderedKeeps(subs, true);
    MatchingSelects(ordered, p);
    MatchingRoutesAscend(subs, p);
    hide Matching, Ordered, RouteKey, KeyLe, Selects;
    forall i, j | 0 <= i < j < |m|
      ensures StrLe(m[i].name, m[j].name) && m[i].name != m[j].name
    {
      assert KeyLe(RouteKey(Routes(m)[i]), RouteKey(Routes(m)[j]));
      KeysOrderNames(RouteOf(m[i]), RouteOf(m[j]));
      var k :| 0 <= k < |ordered| && ordered[k] == m[i];
      var l :| 0 <= l < |ordered| && ordered[l] == m[j];
      var u :| 0 <= u < |subs| && subs[u] == ordered[k];
      var v :| 0 <= v < |subs| && subs[v] == ordered[l];
    }
  }

  /** Otherwise they are served in the order of registration. */
  lemma {:induction false} ServedAsRegistered(subs: seq<QueuedEventSubscription>, p: Published)
    ensures Embeds(Names(Matching(subs, p)), Names(subs))
  {
    if subs != [] {
      var rest := Matching(subs[1..], p);
      ServedAsRegistered(subs[1..], p);
      assert Names(subs) == [subs[0].name] + Names(subs[1..]);
      assert Names([subs[0]] + rest) == [subs[0].name] + Names(rest);
      EmbedsHead(subs[0].name, Names(rest), Names(subs[1..]));
      EmbedsBehind(Names(rest), [subs[0].name], Names(subs[1..]));
      assert [] + rest == rest;
    }
  }

  lemma NotReordered(subs: seq<QueuedEventSubscription>)
    ensures Ordered(subs, false) == subs
  {
  }

  lemma {:induction false} MatchingSelects(subs: seq<QueuedEventSubscription>, p: Published)
    requires NoRepeats(subs)
    ensures var m := Matching(subs, p);
            && NoRepeats(m)
            && (forall i :: 0 <= i < |m| ==> m[i] in subs && Selects(RouteOf(m[i]), p))
            && (forall i :: 0 <= i < |subs| && Selects(RouteOf(subs[i]), p) ==> subs[i] in m)
  {
    if subs != [] {
      MatchingSelects(subs[1..], p);
      assert subs == [subs[0]] + subs[1..];
    }
  }

  lemma {:induction false} OrderedKeeps(subs: seq<QueuedEventSubscription>, deterministic: bool)
    requires NoRepeats(subs)
    ensures var o := Ordered(subs, deterministic);
            && NoRepeats(o)
            && (forall i :: 0 <= i < |o| ==> o[i] in subs)
            && (forall i :: 0 <= i < |subs| ==> subs[i] in o)
  {
    if deterministic {
      SortedSorts(OrderKey, subs);
      var o := Sorted(OrderKey, subs);
      PermutationNoRepeats(subs, o);
      assert forall i :: 0 <= i < |o| ==> o[i] in multiset(o);
      assert forall i :: 0 <= i < |subs| ==> subs[i] in multiset(subs);
    }
  }

  // ----- counting deliveries

  ghost function Views(all: seq<QueuedEventSubscription>): (r: seq<Sub>)
    reads all
    ensures |r| == |all| && forall i :: 0 <= i < |r| ==> r[i] == all[i].View()
  {
    seq(|all|, i requires 0 <= i < |all| reads all => all[i].View())
  }

  lemma {:induction false} ReceiversCounted(all: seq<QueuedEventSubscription>, matching: seq<QueuedEventSubscription>, p: Published)
    requires NoRepeats(all) && NoRepeats(matching)
    requires forall s :: s in matching ==> s in all
    requires forall s :: s in all ==> (s in matching <==> Receives(s.View(), p))
    ensures |matching| == Receivers(Views(all), p)
  {
    EmptyOrHeaded(matching);
    if all != [] {
      var n := |all| - 1;
      var front, last := all[..n], all[n];
      assert Views(all)[..n] == Views(front);
      assert all == front + [last] && last !in front;
      if Receives(last.View(), p) {
        assert last in all && last in matching;
        var i :| 0 <= i < |matching| && matching[i] == last;
        RemoveAtFacts(matching, i);
        ReceiversCounted(front, RemoveAt(matching, i), p);
      } else {
        ReceiversCounted(front, matching, p);
      }
    }
  }

  lemma {:induction false} AppendKeepsNames(subs: seq<QueuedEventSubscription>, s: QueuedEventSubscription)
    requires DistinctNames(subs) && forall i :: 0 <= i < |subs| ==> subs[i].name != s.name
    ensures DistinctNames(subs + [s])
  {
  }

  lemma {:induction false} DropKeepsNames(subs: seq<QueuedEventSubscription>, i: nat)
    requires i < |subs| && DistinctNames(subs)
    ensures DistinctNames(RemoveAt(subs, i))
  {
  }

  lemma {:induction false} TakeKeepsClosed(s: Sub)
    ensures TakeNext(s).0.closed == s.closed
  {
  }

  // ----- the bus object

  class InProcessEventBus {
    const deterministic: bool
    const defaultQueueSize: nat
    /** The open subscriptions, in registration order. */
    var subscriptions: seq<QueuedEventSubscription>
    var closed: bool
    var publishedEvents: nat
    var deliveredEvents: nat
    var backpressureEvents: nat
    var lastDeliveryOrder: seq<string>
    /** Every subscription ever made, and every publication. */
    ghost var all: seq<QueuedEventSubscription>
    ghost var log: seq<Published>

    ghost predicate Valid()
      reads this, all
    {
      && defaultQueueSize >= 1
      && NoRepeats(all) && NoRepeats(subscriptions) && DistinctNames(subscriptions)
      && (forall s :: s in all ==> s.Valid())
      && (forall s :: s in subscriptions ==> s in all && !s.closed)
      && (forall s :: s in all && !s.closed ==> s in subscriptions)
      && publishedEvents == |log|
    }

    ghost function View(): BusState
      reads this, all
    {
      BusState(Views(all), closed, defaultQueueSize, log, deliveredEvents, backpressureEvents)
    }

    constructor (deterministic: bool, defaultQueueSize: nat)
      requires defaultQueueSize >= 1
      ensures Valid() && View() == Init(defaultQueueSize) && this.deterministic == deterministic && Inv(View())
    {
      this.deterministic, this.defaultQueueSize := deterministic, defaultQueueSize;
      subscriptions, closed, publishedEvents, deliveredEvents, backpressureEvents := [], false, 0, 0, 0;
      lastDeliveryOrder, all, log := [], [], [];
    }

    /** Construction with its checks, in their order. The timeout only matters to closing, which does not wait here. */
    static method Create(deterministic: bool, defaultQueueSize: int, shutdownTimeoutSeconds: real)
      returns (r: Result<InProcessEventBus, BusError>)
      ensures r.Ok? <==> defaultQueueSize >= 1 && shutdownTimeoutSeconds >= 0.0
      ensures r.Err? ==> r.error == if defaultQueueSize < 1 then InvalidQueueSize else InvalidTimeout
      ensures r.Ok? ==> fresh(r.value) && r.value.Valid() && r.value.View() == Init(defaultQueueSize) && Inv(r.value.View())
    {
      if defaultQueueSize < 1 {
        return Err(InvalidQueueSize);
      }
      if shutdownTimeoutSeconds < 0.0 {
        return Err(InvalidTimeout);
      }
      var b := new InProcessEventBus(deterministic, defaultQueueSize);
      return Ok(b);
    }

    /** The matching open subscriptions, in delivery order. */
    function MatchingSubscriptions(p: Published): seq<QueuedEventSubscription>
      reads this
    {
      Matching(Ordered(subscriptions, deterministic), p)
    }

    /** `matching` lists exactly the subscriptions that receive the publication, once each. */
    ghost predicate Targets(matching: seq<QueuedEventSubscription>, p: Published)
      reads this, all
    {
      && NoRepeats(matching)
      && (forall s :: s in matching ==> s in all)
      && (forall s :: s in all ==> (s in matching <==> Receives(s.View(), p)))
    }

    ghost predicate AllHaveRoom(p: Published)
      reads this, all
    {
      forall s :: s in all && Receives(s.View(), p) ==> !Full(s.View())
    }

    lemma {:induction false} MatchingAreTargets(p: Published)
      requires Valid()
      ensures Targets(MatchingSubscriptions(p), p)
    {
      hide Sane;
      OrderedKeeps(subscriptions, deterministic);
      var ordered := Ordered(subscriptions, deterministic);
      MatchingSelects(ordered, p);
      var m := Matching(ordered, p);
      forall i | 0 <= i < |m|
        ensures m[i] in all && Receives(m[i].View(), p)
      {
        var j :| 0 <= j < |ordered| && ordered[j] == m[i];
        assert ordered[j] in subscriptions;
      }
      forall i | 0 <= i < |all| && Receives(all[i].View(), p)
        ensures all[i] in m
      {
        assert all[i] in subscriptions;
        var j :| 0 <= j < |subscriptions| && subscriptions[j] == all[i];
        var k :| 0 <= k < |ordered| && ordered[k] == subscriptions[j];
      }
    }

    /** The order of delivery, and who is in it. */
    lemma {:induction false} OrderOfDelivery(e: Event, key: Option<string>)
      requires Valid()
      ensures var names := Names(MatchingSubscriptions(Published(e, EffectiveKey(e, key))));
              && (deterministic ==> Rising(names))
              && (!deterministic ==> Embeds(names, Names(subscriptions)))
              && (forall s :: s in subscriptions ==>
                    (s.name in names <==>
                       s.eventType in e.classes && (s.partition.None? || s.partition == if key.Some? then key else e.marketId)))
    {
      hide Sane, Matching, Ordered;
      var p := Published(e, EffectiveKey(e, key));
      OrderedKeeps(subscriptions, deterministic);
      var ordered := Ordered(subscriptions, deterministic);
      MatchingSelects(ordered, p);
      if deterministic {
        ServedByName(subscriptions, p);
      } else {
        ServedAsRegistered(subscriptions, p);
        assert ordered == subscriptions by { NotReordered(subscriptions); }
      }
      var m := Matching(ordered, p);
      forall s | s in subscriptions
        ensures s.name in Names(m) <==> Selects(RouteOf(s), p)
      {
        var u :| 0 <= u < |subscriptions| && subscriptions[u] == s;
        if Selects(RouteOf(s), p) {
          var k :| 0 <= k < |ordered| && ordered[k] == subscriptions[u];
          assert ordered[k] in m;
          var i :| 0 <= i < |m| && m[i] == s;
          assert Names(m)[i] == s.name;
        }
        if s.name in Names(m) {
          var i :| 0 <= i < |Names(m)| && Names(m)[i] == s.name;
          var k :| 0 <= k < |ordered| && ordered[k] == m[i];
          var v :| 0 <= v < |subscriptions| && subscriptions[v] == ordered[k];
        }
      }
    }

    /** Every matching queue takes the event; no other queue changes. */
    method DeliverTo(matching: seq<QueuedEventSubscription>, p: Published)
      requires NoRepeats(all) && Targets(matching, p) && AllHaveRoom(p)
      requires forall s :: s in all ==> s.Valid()
      modifies all
      ensures forall s :: s in all ==> s.Valid() && s.closed == old(s.closed)
      ensures Views(all) == DeliverAll(old(Views(all)), p)
    {
      hide Sane;
      for i := 0 to |matching|
        invariant forall s :: s in all ==> s.Valid() && s.closed == old(s.closed)
        invariant forall s :: s in all && s !in matching ==> s.View() == old(s.View())
        invariant forall k :: 0 <= k < i ==> matching[k].View() == Deliver(old(matching[k].View()), p.event)
        invariant forall k :: i <= k < |matching| ==> matching[k].View() == old(matching[k].View())
      {
        assert matching[i] in matching;
        assert Receives(old(matching[i].View()), p) && !Full(old(matching[i].View()));
        var _ := matching[i].PublishNowait(p.event);
      }
      forall j | 0 <= j < |all|
        ensures all[j].View() == DeliverAll(old(Views(all)), p)[j]
      {
        assert all[j] in all;
        if all[j] in matching {
          var k :| 0 <= k < |matching| && matching[k] == all[j];
        }
      }
    }

    method Publish(e: Event, partitionKey: Option<string>) returns (r: Result<(), BusError>)
      requires Valid()
      modifies this, all
      ensures Valid() && all == old(all) && subscriptions == old(subscriptions)
      ensures (View(), r) == DoPublish(old(View()), e, partitionKey)
      ensures old(Inv(View())) ==> Inv(View())
      ensures r.Ok? ==>
                forall i :: 0 <= i < |all| ==>
                  all[i].queue == old(all[i].queue) +
                    if !old(all[i].closed) && all[i].eventType in e.classes
                       && (all[i].partition.None? || all[i].partition == if partitionKey.Some? then partitionKey else e.marketId)
                    then [Real(e)] else []
      ensures lastDeliveryOrder == if r.Ok?
                                   then Names(old(MatchingSubscriptions(Published(e, EffectiveKey(e, partitionKey)))))
                                   else old(lastDeliveryOrder)
    {
      hide Sane, Ordered, Targets, DistinctNames, SomeFull, FullNames, Receivers, DeliverAll, Names, Inv;
      if Inv(View()) {
        PublishKeepsInv(View(), e, partitionKey);
      }
      ghost var before := View();
      if closed {
        return Err(BusClosed);
      }
      var p := Published(e, EffectiveKey(e, partitionKey));
      var matching := MatchingSubscriptions(p);
      MatchingAreTargets(p);
      TargetsCounted(matching, p);
      var full := set s | s in matching && s.pending >= s.queueSize :: s.name;
      FullNamesAgree(p, matching, full);
      if full != {} {
        backpressureEvents := backpressureEvents + 1;
        return Err(Backpressure(full));
      }
      DeliverTo(matching, p);
      publishedEvents := publishedEvents + 1;
      deliveredEvents := deliveredEvents + |matching|;
      lastDeliveryOrder := Names(matching);
      log := log + [p];
      QueuesReached(before, e, partitionKey);
      return Ok(());
    }

    method Subscribe(eventType: TypeName, name: string, partition: Option<string>, queueSize: Option<int>)
      returns (r: Result<QueuedEventSubscription, BusError>)
      requires Valid()
      modifies this
      ensures Valid()
      ensures View() == DoSubscribe(old(View()), eventType, name, partition, queueSize).0
      ensures r.Ok? <==> DoSubscribe(old(View()), eventType, name, partition, queueSize).1.Ok?
      ensures r.Err? ==> DoSubscribe(old(View()), eventType, name, partition, queueSize).1 == Err(r.error)
      ensures r.Ok? ==> fresh(r.value) && all == old(all) + [r.value]
      ensures subscriptions == if r.Ok? then old(subscriptions) + [r.value] else old(subscriptions)
      ensures r.Ok? ==> RouteOf(r.value) == Route(name, eventType, partition)
      ensures old(Inv(View())) ==> Inv(View())
    {
      hide Sane, Registered, Trimmed, NoRepeats, DistinctNames, Inv;
      if Inv(View()) {
        SubscribeKeepsInv(View(), eventType, name, partition, queueSize);
      }
      if closed {
        return Err(BusClosed);
      }
      if !Trimmed(name) {
        return Err(InvalidName);
      }
      RegisteredIff(name);
      if exists i :: 0 <= i < |subscriptions| && subscriptions[i].name == name {
        return Err(DuplicateConsumer);
      }
      var size := if queueSize.Some? then queueSize.value else defaultQueueSize;
      if size < 1 {
        return Err(InvalidQueueSize);
      }
      var s := new QueuedEventSubscription(eventType, name, partition, size, |log|);
      AppendKeepsNames(subscriptions, s);
      AppendNoRepeats(subscriptions, s);
      AppendNoRepeats(all, s);
      subscriptions := subscriptions + [s];
      ghost var before := Views(all);
      all := all + [s];
      assert Views(all) == before + [s.View()];
      return Ok(s);
    }

    lemma {:induction false} RegisteredIff(name: string)
      requires Valid()
      ensures Registered(Views(all), name) <==> exists i :: 0 <= i < |subscriptions| && subscriptions[i].name == name
    {
      var views := Views(all);
      if Registered(views, name) {
        var i :| 0 <= i < |views| && !views[i].closed && views[i].name == name;
        assert all[i] in all && all[i] in subscriptions;
        var j :| 0 <= j < |subscriptions| && subscriptions[j] == all[i];
      }
      if i :| 0 <= i < |subscriptions| && subscriptions[i].name == name {
        assert subscriptions[i] in all;
        var j :| 0 <= j < |all| && all[j] == subscriptions[i];
        assert !views[j].closed && views[j].name == name;
      }
    }

    lemma {:induction false} ViewsWithOneChanged(i: nat, before: seq<Sub>)
      requires i < |all| && |before| == |all| && NoRepeats(all)
      requires forall j :: 0 <= j < |all| && all[j] != all[i] ==> all[j].View() == before[j]
      ensures Views(all) == before[i := all[i].View()]
    {
      OnlyOnce(all, i);
    }

    /** The consumer of the `i`-th subscription asks for its next event. */
    method ConsumeFrom(s: QueuedEventSubscription, ghost i: nat) returns (r: NextResult)
      requires Valid() && i < |all| && all[i] == s
      modifies s
      ensures Valid()
      ensures View() == Do(old(View()), Consume(i)) && r == TakeNext(old(View()).subs[i]).1
      ensures old(Inv(View())) ==> Inv(View())
    {
      hide Sane, Inv, NoRepeats, DistinctNames, TakeNext;
      if Inv(View()) {
        StepKeepsInv(View(), Consume(i));
      }
      r := s.Next();
      assert s.closed == old(s.closed) by { TakeKeepsClosed(old(s.View())); }
      ViewsWithOneChanged(i, old(Views(all)));
    }

    /** `subscription.close()`, with the callback that takes the subscription off the bus. */
    method CloseSubscription(s: QueuedEventSubscription, ghost i: nat)
      requires Valid() && i < |all| && all[i] == s
      modifies this, s
      ensures Valid() && all == old(all)
      ensures View() == Do(old(View()), CloseSub(i))
      ensures old(Inv(View())) ==> Inv(View())
    {
      hide Sane, Inv, NoRepeats, DistinctNames;
      if Inv(View()) {
        StepKeepsInv(View(), CloseSub(i));
      }
      var first := s.Close(|log|);
      if first {
        var k :| 0 <= k < |subscriptions| && subscriptions[k] == s;
        RemoveAtFacts(subscriptions, k);
        DropKeepsNames(subscriptions, k);
        subscriptions := RemoveAt(subscriptions, k);
      }
      ViewsWithOneChanged(i, old(Views(all)));
    }

    /** Close every open subscription. */
    method CloseEach(open: seq<QueuedEventSubscription>)
      requires NoRepeats(all) && NoRepeats(open)
      requires forall s :: s in all ==> s.Valid()
      requires forall s :: s in open ==> s in all
      requires forall s :: s in all && !s.closed ==> s in open
      modifies all
      ensures forall s :: s in all ==> s.Valid() && s.closed
      ensures Views(all) == CloseAll(old(Views(all)), |log|)
    {
      hide Sane;
      for i := 0 to |open|
        invariant forall s :: s in all ==> s.Valid()
        invariant forall s :: s in all && s !in open ==> s.View() == old(s.View())
        invariant forall k :: 0 <= k < i ==> open[k].View() == Closed(old(open[k].View()), |log|)
        invariant forall k :: i <= k < |open| ==> open[k].View() == old(open[k].View())
      {
        assert open[i] in open;
        var _ := open[i].Close(|log|);
      }
      forall j | 0 <= j < |all|
        ensures all[j].View() == CloseAll(old(Views(all)), |log|)[j]
      {
        assert all[j] in all;
        if all[j] in open {
          var k :| 0 <= k < |open| && open[k] == all[j];
        }
      }
      forall s | s in all
        ensures s.closed
      {
        var j :| 0 <= j < |all| && all[j] == s;
      }
    }

    /** `close`: the bus stops taking events, and every open subscription is closed. */
    method Close()
      requires Valid()
      modifies this, all
      ensures Valid() && all == old(all)
      ensures View() == DoCloseBus(old(View()))
      ensures old(Inv(View())) ==> Inv(View())
    {
      hide Sane, CloseAll, Closed, Inv;
      if Inv(View()) {
        CloseBusKeepsInv(View());
      }
      if closed {
        return;
      }
      closed := true;
      CloseEach(subscriptions);
      subscriptions := [];
    }

    lemma {:induction false} TargetsCounted(matching: seq<QueuedEventSubscription>, p: Published)
      requires NoRepeats(all) && Targets(matching, p)
      ensures |matching| == Receivers(Views(all), p)
    {
      ReceiversCounted(all, matching, p);
    }

    lemma {:induction false} FullNamesAgree(p: Published, matching: seq<QueuedEventSubscription>, full: set<string>)
      requires Valid() && Targets(matching, p)
      requires full == set s | s in matching && s.pending >= s.queueSize :: s.name
      ensures full == FullNames(Views(all), p)
      ensures full != {} <==> SomeFull(Views(all), p)
      ensures full == {} ==> AllHaveRoom(p)
    {
      var views := Views(all);
      forall n | n in full
        ensures n in FullNames(views, p) && SomeFull(views, p)
      {
        var s :| s in matching && s.pending >= s.queueSize && s.name == n;
        assert s in all;
        var i :| 0 <= i < |all| && all[i] == s;
        assert Receives(views[i], p) && Full(views[i]);
      }
      forall i | 0 <= i < |views| && Receives(views[i], p) && Full(views[i])
        ensures views[i].name in full
      {
        assert all[i] in all;
      }
      forall s | s in all && Receives(s.View(), p) && Full(s.View())
        ensures s.name in full
      {
        assert s in matching;
      }
    }
  }

  /** Two deterministic buses on which the same routes were registered, in any two orders, agree on the order of delivery. */
  lemma {:induction false} BusesAgree(x: InProcessEventBus, y: InProcessEventBus, p: Published)
    requires x.Valid() && y.Valid() && x.deterministic && y.deterministic
    requires multiset(Routes(x.subscriptions)) == multiset(Routes(y.subscriptions))
    ensures Names(x.MatchingSubscriptions(p)) == Names(y.MatchingSubscriptions(p))
  {
    DeliveryForgetsRegistration(x.subscriptions, y.subscriptions, p);
  }

  /** The same event, published on two such buses, is delivered in the same order. */
  method PublishOnBoth(x: InProcessEventBus, y: InProcessEventBus, e: Event, partitionKey: Option<string>)
    returns (r: Result<(), BusError>, s: Result<(), BusError>)
    requires x.Valid() && y.Valid() && x.deterministic && y.deterministic
    requires x != y && forall u :: u in x.all ==> u !in y.all
    requires multiset(Routes(x.subscriptions)) == multiset(Routes(y.subscriptions))
    modifies x, x.all, y, y.all
    ensures x.Valid() && y.Valid()
    ensures r.Ok? && s.Ok? ==> x.lastDeliveryOrder == y.lastDeliveryOrder
  {
    hide Sane, Inv, DistinctNames, NoRepeats, DoPublish, Matching, Ordered, Names, Routes, Selects, Full;
    BusesAgree(x, y, Published(e, EffectiveKey(e, partitionKey)));
    r := x.Publish(e, partitionKey);
    s := y.Publish(e, partitionKey);
  }
}
