/**
 The in-process bus as a state machine: publish, subscribe, consume and close in any order.

 Each operation is atomic: none of them waits between its first read and its last write. Every subscription ever made
 stays in the state, with what its consumer has taken so far.
 */
module BusModel {
  import opened Common

  datatype TypeName = TypeName(moduleName: string, qualname: string)

  /** An attribute of an event envelope, by the Python type of its value. */
  datatype Attribute = Absent | IntValue(n: int) | StrValue(text: string) | OtherValue

  /** `classes` holds every class that the event is an instance of. */
  datatype Event = Event(
    eventId: string, classes: set<TypeName>, marketId: Option<string>, occurredAt: Time, receivedAt: Time,
    replaySessionId: Option<string>, exchangeSequence: Attribute, sourcePartition: Attribute, body: string)

  datatype Item = Real(event: Event) | Sentinel

  datatype Sub = Sub(
    name: string, eventType: TypeName, partition: Option<string>, size: nat,
    queue: seq<Item>, pending: int, closed: bool, consumed: seq<Event>, born: nat, died: nat)

  /** A published event with its effective partition key. */
  datatype Published = Published(event: Event, key: Option<string>)

  datatype BusState = BusState(
    subs: seq<Sub>, closed: bool, defaultSize: nat, log: seq<Published>, delivered: nat, backpressure: nat)

  datatype BusError = BusClosed | Backpressure(names: set<string>) | InvalidName | DuplicateConsumer | InvalidQueueSize | InvalidTimeout

  datatype Step =
    | Publish(event: Event, partitionKey: Option<string>)
    | Subscribe(eventType: TypeName, name: string, partition: Option<string>, queueSize: Option<int>)
    | Consume(i: nat)
    | CloseSub(i: nat)
    | CloseBus

  // ----- one subscription

  predicate Full(s: Sub) {
    s.pending >= s.size
  }

  function Deliver(s: Sub, e: Event): Sub {
    s.(queue := s.queue + [Real(e)], pending := s.pending + 1)
  }

  /** `__anext__`: the next event, the end, or nothing yet. */
  datatype NextResult = Got(event: Event) | Stopped | WouldBlock

  function TakeNext(s: Sub): (Sub, NextResult) {
    if s.queue == [] then (s, WouldBlock)
    else match s.queue[0]
      case Sentinel => (s.(queue := s.queue[1..]), Stopped)
      case Real(e) => (s.(queue := s.queue[1..], pending := s.pending - 1, consumed := s.consumed + [e]), Got(e))
  }

  function Closed(s: Sub, at: nat): Sub {
    if s.closed then s else s.(closed := true, queue := s.queue + [Sentinel], died := at)
  }

  /** A consumer's name, with the type and the partition that it asked for. */
  datatype Route = Route(name: string, eventType: TypeName, partition: Option<string>)

  predicate Selects(r: Route, p: Published) {
    r.eventType in p.event.classes && (r.partition.None? || r.partition == p.key)
  }

  predicate Matches(s: Sub, p: Published) {
    Selects(Route(s.name, s.eventType, s.partition), p)
  }

  predicate Receives(s: Sub, p: Published) {
    !s.closed && Matches(s, p)
  }

  // ----- the bus

  function EffectiveKey(e: Event, partitionKey: Option<string>): Option<string> {
    if partitionKey.Some? then partitionKey else e.marketId
  }

  function Receivers(subs: seq<Sub>, p: Published): nat {
    if subs == [] then 0 else Receivers(subs[..|subs| - 1], p) + (if Receives(subs[|subs| - 1], p) then 1 else 0)
  }

  function DeliverAll(subs: seq<Sub>, p: Published): (r: seq<Sub>)
    ensures |r| == |subs|
    ensures forall i :: 0 <= i < |r| ==> r[i] == if Receives(subs[i], p) then Deliver(subs[i], p.event) else subs[i]
  {
    seq(|subs|, i requires 0 <= i < |subs| => if Receives(subs[i], p) then Deliver(subs[i], p.event) else subs[i])
  }

  predicate SomeFull(subs: seq<Sub>, p: Published) {
    exists i :: 0 <= i < |subs| && Receives(subs[i], p) && Full(subs[i])
  }

  function FullNames(subs: seq<Sub>, p: Published): set<string> {
    set i | 0 <= i < |subs| && Receives(subs[i], p) && Full(subs[i]) :: subs[i].name
  }

  /** All matching queues get the event, or none does. */
  function DoPublish(b: BusState, e: Event, partitionKey: Option<string>): (BusState, Result<(), BusError>) {
    var p := Published(e, EffectiveKey(e, partitionKey));
    if b.closed then (b, Err(BusClosed))
    else if SomeFull(b.subs, p) then (b.(backpressure := b.backpressure + 1), Err(Backpressure(FullNames(b.subs, p))))
    else (b.(subs := DeliverAll(b.subs, p), log := b.log + [p], delivered := b.delivered + Receivers(b.subs, p)), Ok(()))
  }

  predicate Registered(subs: seq<Sub>, name: string) {
    exists i :: 0 <= i < |subs| && !subs[i].closed && subs[i].name == name
  }

  function DoSubscribe(b: BusState, eventType: TypeName, name: string, partition: Option<string>, queueSize: Option<int>)
    : (BusState, Result<(), BusError>)
  {
    var size := if queueSize.Some? then queueSize.value else b.defaultSize;
    if b.closed then (b, Err(BusClosed))
    else if !Trimmed(name) then (b, Err(InvalidName))
    else if Registered(b.subs, name) then (b, Err(DuplicateConsumer))
    else if size < 1 then (b, Err(InvalidQueueSize))
    else (b.(subs := b.subs + [Sub(name, eventType, partition, size, [], 0, false, [], |b.log|, 0)]), Ok(()))
  }

  function CloseAll(subs: seq<Sub>, at: nat): (r: seq<Sub>)
    ensures |r| == |subs| && forall i :: 0 <= i < |r| ==> r[i] == Closed(subs[i], at)
  {
    seq(|subs|, i requires 0 <= i < |subs| => Closed(subs[i], at))
  }

  function DoCloseBus(b: BusState): BusState {
    if b.closed then b else b.(closed := true, subs := CloseAll(b.subs, |b.log|))
  }

  function Do(b: BusState, step: Step): BusState {
    match step
    case Publish(e, key) => DoPublish(b, e, key).0
    case Subscribe(t, n, p, q) => DoSubscribe(b, t, n, p, q).0
    case Consume(i) => if i < |b.subs| then b.(subs := b.subs[i := TakeNext(b.subs[i]).0]) else b
    case CloseSub(i) => if i < |b.subs| then b.(subs := b.subs[i := Closed(b.subs[i], |b.log|)]) else b
    case CloseBus => DoCloseBus(b)
  }

  function Run(b: BusState, steps: seq<Step>): BusState {
    if steps == [] then b else Do(Run(b, steps[..|steps| - 1]), steps[|steps| - 1])
  }

  function Init(defaultSize: nat): BusState {
    BusState([], false, defaultSize, [], 0, 0)
  }

  // ----- what a subscription is owed

  /** The events still queued. */
  function Queued(queue: seq<Item>): seq<Event> {
    if queue == [] then []
    else Queued(queue[..|queue| - 1]) + (if queue[|queue| - 1].Real? then [queue[|queue| - 1].event] else [])
  }

  /** The matching events of a stretch of the publication log, in order. */
  function Due(s: Sub, log: seq<Published>): seq<Event> {
    if log == [] then []
    else Due(s, log[..|log| - 1]) + (if Matches(s, log[|log| - 1]) then [log[|log| - 1].event] else [])
  }

  function Lifetime(s: Sub, log: seq<Published>): seq<Published>
    requires s.born <= |log| && (s.closed ==> s.born <= s.died <= |log|)
  {
    log[s.born..if s.closed then s.died else |log|]
  }

  /** The close marker comes at most once, last, and only in a closed subscription. */
  ghost predicate Shaped(s: Sub) {
    && (forall i :: 0 <= i < |s.queue| - 1 ==> s.queue[i].Real?)
    && (!s.closed ==> forall i :: 0 <= i < |s.queue| ==> s.queue[i].Real?)
  }

  /** The counter agrees with the queue, and the queue fits its `size + 1` slots. */
  ghost predicate Sane(s: Sub) {
    && s.size >= 1
    && Shaped(s)
    && s.pending == |Queued(s.queue)| <= s.size
    && |s.queue| <= s.size + 1
  }

  /** What was taken plus what waits is exactly what was due. */
  ghost predicate Exact(s: Sub, log: seq<Published>) {
    && Sane(s)
    && s.born <= |log| && (s.closed ==> s.born <= s.died <= |log|)
    && s.consumed + Queued(s.queue) == Due(s, Lifetime(s, log))
  }

  function Total(subs: seq<Sub>): int {
    if subs == [] then 0
    else Total(subs[..|subs| - 1]) + |subs[|subs| - 1].consumed| + subs[|subs| - 1].pending
  }

  ghost predicate Inv(b: BusState) {
    && b.defaultSize >= 1
    && (forall i :: 0 <= i < |b.subs| ==> Exact(b.subs[i], b.log))
    && (forall i, j :: 0 <= i < j < |b.subs| && !b.subs[i].closed && !b.subs[j].closed ==> b.subs[i].name != b.subs[j].name)
    && (b.closed ==> forall i :: 0 <= i < |b.subs| ==> b.subs[i].closed)
    && b.delivered == Total(b.subs)
  }
}
