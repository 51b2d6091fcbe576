/** Safety of dispatch over every interleaving. */
module DispatchSafety {
  import opened Common
  import opened Sequences
  import opened Idempotency
  import opened Dispatch

  // ----- histories

  lemma {:induction false} TouchRecalls(entries: map<string, Entry>, log: seq<Event>, k: string)
    requires AllRemembered(entries, log)
    ensures AllRemembered(entries, log + [Touched(k)])
    ensures forall key :: RunsSince(log + [Touched(k)], key) == RunsSince(log, key)
  {
    forall key
      ensures Remembered(entries, log + [Touched(k)], key) && RunsSince(log + [Touched(k)], key) == RunsSince(log, key)
    {
      assert Remembered(entries, log, key);
      LogSnoc(log, Touched(k), key);
    }
  }

  lemma {:induction false} EvictionRecalls(entries: map<string, Entry>, log: seq<Event>, k: string)
    requires AllRemembered(entries, log)
    ensures AllRemembered(entries - {k}, log + [EvictedKey(k)])
    ensures forall key :: key != k ==> RunsSince(log + [EvictedKey(k)], key) == RunsSince(log, key)
  {
    forall key
      ensures Remembered(entries - {k}, log + [EvictedKey(k)], key)
      ensures key != k ==> RunsSince(log + [EvictedKey(k)], key) == RunsSince(log, key)
    {
      assert Remembered(entries, log, key);
      LogSnoc(log, EvictedKey(k), key);
    }
  }

  lemma {:induction false} RecordRecalls(entries: map<string, Entry>, log: seq<Event>, k: string, entry: Entry)
    requires AllRemembered(entries, log)
    requires k in entries && entry.status != InProgress
    ensures AllRemembered(entries[k := entry], log + [Recorded(k, entry)])
    ensures forall key :: RunsSince(log + [Recorded(k, entry)], key) == RunsSince(log, key)
  {
    forall key
      ensures Remembered(entries[k := entry], log + [Recorded(k, entry)], key)
      ensures RunsSince(log + [Recorded(k, entry)], key) == RunsSince(log, key)
    {
      assert Remembered(entries, log, key);
      LogSnoc(log, Recorded(k, entry), key);
    }
  }

  lemma {:induction false} TouchOrders(rest: seq<string>, log: seq<Event>, k: string)
    requires ByRecency(rest, log) && k !in rest
    ensures ByRecency(rest + [k], log + [Touched(k)])
  {
    var all, after := rest + [k], log + [Touched(k)];
    forall i, j | 0 <= i < j < |all|
      ensures LastTouch(after, all[i]) < LastTouch(after, all[j])
    {
      LogSnoc(log, Touched(k), all[i]);
      LogSnoc(log, Touched(k), all[j]);
      LastTouchBound(log, all[i]);
    }
  }

  lemma {:induction false} OtherEventKeepsOrder(order: seq<string>, log: seq<Event>, e: Event)
    requires ByRecency(order, log) && !e.Touched?
    ensures ByRecency(order, log + [e])
  {
    forall i | 0 <= i < |order|
      ensures LastTouch(log + [e], order[i]) == LastTouch(log, order[i])
    {
      LogSnoc(log, e, order[i]);
    }
  }

  lemma {:induction false} RemovalKeepsOrder(order: seq<string>, log: seq<Event>, i: nat)
    requires i < |order| && ByRecency(order, log)
    ensures ByRecency(RemoveAt(order, i), log)
  {
  }

  // ----- steps that leave the table alone

  lemma {:induction false} MoveKeepsInv(s: State, id: nat, phase: Phase)
    requires Inv(s) && id in s.tasks
    requires Owner(s.tasks[id].(phase := phase)) ==> Owner(s.tasks[id])
    requires !phase.Owning? && Recordable(s.tasks[id].(phase := phase))
    ensures Inv(Move(s, id, phase))
  {
    hide AllRemembered, ByRecency, WellFormed;
    var t := Move(s, id, phase);
    forall i | i in t.tasks
      ensures Holds(t.table.entries, t.tasks[i]) && Recordable(t.tasks[i])
    {
      assert Holds(s.table.entries, s.tasks[i]) && Recordable(s.tasks[i]);
    }
  }

  lemma {:induction false} SubmitKeepsInv(s: State, id: nat, command: Command)
    requires Inv(s) && id !in s.tasks
    ensures Inv(s.(tasks := s.tasks[id := Task(command, Admit(command))]))
  {
    hide AllRemembered, ByRecency, WellFormed, FailureReply;
    var t := s.(tasks := s.tasks[id := Task(command, Admit(command))]);
    assert !Owner(t.tasks[id]) && Recordable(t.tasks[id]);
    forall i | i in t.tasks
      ensures Holds(t.table.entries, t.tasks[i]) && Recordable(t.tasks[i])
    {
      assert i != id ==> Holds(s.table.entries, s.tasks[i]) && Recordable(s.tasks[i]);
    }
  }

  lemma {:induction false} StartKeepsInv(s: State, id: nat)
    requires Inv(s) && id in s.tasks && s.tasks[id].phase.Owning?
    ensures var m := Move(s, id, Running);
            Inv(m.(log := m.log + [Started(s.tasks[id].command.key)]))
  {
    hide AllRemembered, ByRecency, WellFormed;
    var key := s.tasks[id].command.key;
    MoveKeepsInv(s, id, Running);
    var m := Move(s, id, Running);
    var t := m.(log := m.log + [Started(key)]);
    assert Holds(s.table.entries, s.tasks[id]);
    StartRecalls(m.table.entries, m.log, key);
    OtherEventKeepsOrder(m.table.order, m.log, Started(key));
    forall i | i in t.tasks && t.tasks[i].phase.Owning?
      ensures RunsSince(t.log, t.tasks[i].command.key) == 0
    {
      assert Owner(s.tasks[i]) && Owner(s.tasks[id]);
      LogSnoc(s.log, Started(key), t.tasks[i].command.key);
    }
  }

  lemma {:induction false} BeginKeepsInv(s: State, id: nat, now: Time)
    requires Inv(s) && id in s.tasks && s.tasks[id].phase.Owning?
    ensures Inv(DoBegin(s, id, now))
  {
    hide Inv;
    var c := s.tasks[id].command;
    if c.deadline.Some? && now > c.deadline.value {
      MoveKeepsInv(s, id, DoBegin(s, id, now).tasks[id].phase);
    } else {
      StartKeepsInv(s, id);
    }
  }

  /** A start is remembered as the one run that the key is allowed. */
  lemma {:induction false} StartRecalls(entries: map<string, Entry>, log: seq<Event>, k: string)
    requires AllRemembered(entries, log)
    requires k in entries && RunsSince(log, k) == 0
    ensures AllRemembered(entries, log + [Started(k)])
  {
    forall key
      ensures Remembered(entries, log + [Started(k)], key)
    {
      assert Remembered(entries, log, key);
      LogSnoc(log, Started(k), key);
    }
  }

  // ----- steps that change the table

  /** Replacing the table by one that keeps every owned entry keeps ownership. */
  lemma {:induction false} OwnersKeepHolding(s: State, t: State, id: nat)
    requires Owned(s) && id in s.tasks && t.tasks.Keys == s.tasks.Keys
    requires forall i :: i in s.tasks && i != id ==> t.tasks[i] == s.tasks[i]
    requires forall i :: i in s.tasks && i != id && Owner(s.tasks[i]) ==>
               s.tasks[i].command.key in t.table.entries
               && t.table.entries[s.tasks[i].command.key] == s.table.entries[s.tasks[i].command.key]
    requires t.tasks[id].command == s.tasks[id].command && Recordable(t.tasks[id])
    requires Holds(t.table.entries, t.tasks[id])
    requires Owner(t.tasks[id]) ==>
               forall i :: i in s.tasks && i != id && Owner(s.tasks[i]) ==> s.tasks[i].command.key != s.tasks[id].command.key
    ensures Owned(t)
  {
    forall i | i in t.tasks
      ensures Holds(t.table.entries, t.tasks[i]) && Recordable(t.tasks[i])
    {
      assert Holds(s.table.entries, s.tasks[i]) && Recordable(s.tasks[i]);
    }
  }

  lemma {:induction false} KnownKeyIsListed(t: Table, key: string)
    requires WellFormed(t) && key in t.entries
    ensures key in t.order && NoRepeats(t.order)
  {
  }

  /** A request for a key that is in the table is answered at once; the table keeps its entries. */
  lemma {:induction false} AskKnownKeepsInv(s: State, id: nat)
    requires Inv(s) && id in s.tasks && s.tasks[id].phase.Arrived? && s.tasks[id].command.key in s.table.entries
    ensures Inv(DoAskHook(s, id))
  {
    hide Claim, AllRemembered, ByRecency, WellFormed, NoRepeats, ReplyFor;
    var c, t := s.tasks[id].command, DoAskHook(s, id);
    ClaimFacts(s.table, s.max, c.key, c.fingerprint);
    KnownKeyIsListed(s.table, c.key);
    var i := IndexOf(s.table.order, c.key);
    RemoveAtFacts(s.table.order, i);
    RemovalKeepsOrder(s.table.order, s.log, i);
    TouchOrders(RemoveAt(s.table.order, i), s.log, c.key);
    TouchRecalls(s.table.entries, s.log, c.key);
    assert s.log + [] + [Touched(c.key)] == s.log + [Touched(c.key)];
    OwnersKeepHolding(s, t, id);
  }

  /** The table after making room, and its history. */
  lemma {:induction false} RoomKeepsHistory(s: State, key: string)
    requires Inv(s) && key !in s.table.entries
    ensures var room, log := MakeRoom(s.table, s.max), s.log + EvictionEvents(s.table, s.max, key);
            && AllRemembered(room.entries, log) && key !in room.entries
            && ByRecency(room.order, log)
            && (forall k :: k in s.table.entries && s.table.entries[k].status == InProgress ==>
                  k in room.entries && room.entries[k] == s.table.entries[k] && RunsSince(log, k) == RunsSince(s.log, k))
  {
    var t := s.table;
    var i := FirstEvictable(t, None, 0);
    if |t.order| >= s.max && i.Some? {
      var k := t.order[i.value];
      EvictionRecalls(t.entries, s.log, k);
      RemovalKeepsOrder(t.order, s.log, i.value);
      OtherEventKeepsOrder(RemoveAt(t.order, i.value), s.log, EvictedKey(k));
    } else {
      assert s.log + [] == s.log;
    }
  }

  lemma {:induction false} ClaimRecalls(entries: map<string, Entry>, log: seq<Event>, key: string, entry: Entry)
    requires AllRemembered(entries, log) && key !in entries && entry.status == InProgress
    ensures AllRemembered(entries[key := entry], log)
  {
    var after := entries[key := entry];
    forall k
      ensures Remembered(after, log, k)
    {
      assert Remembered(entries, log, k);
    }
  }

  lemma {:induction false} FullTableKeeps(t: Table, max: nat, key: string, fingerprint: string)
    requires key !in t.entries && Claim(t, max, key, fingerprint).1 == CapacityExhausted
    requires Claim(t, max, key, fingerprint).0 == t
    ensures MakeRoom(t, max) == t
  {
  }

  /** A request for a new key claims it, or is turned away from a table full of entries in progress. */
  lemma {:induction false} AskNewKeepsInv(s: State, id: nat)
    requires Inv(s) && id in s.tasks && s.tasks[id].phase.Arrived? && s.tasks[id].command.key !in s.table.entries
    ensures Inv(DoAskHook(s, id))
  {
    hide ByRecency, WellFormed, NoRepeats, ReplyFor, MakeRoom, EvictionEvents;
    var c, t := s.tasks[id].command, DoAskHook(s, id);
    ClaimFacts(s.table, s.max, c.key, c.fingerprint);
    RoomKeepsHistory(s, c.key);
    var (u, d) := Claim(s.table, s.max, c.key, c.fingerprint);
    var room, log := MakeRoom(s.table, s.max), s.log + EvictionEvents(s.table, s.max, c.key);
    forall i | i in s.tasks && Owner(s.tasks[i])
      ensures s.tasks[i].command.key in s.table.entries && s.table.entries[s.tasks[i].command.key].status == InProgress
    {
      assert Holds(s.table.entries, s.tasks[i]);
    }
    if d == CapacityExhausted {
      FullTableKeeps(s.table, s.max, c.key, c.fingerprint);
      assert log + [] == log;
    } else {
      var entry := Entry(c.fingerprint, InProgress, None, None);
      ClaimRecalls(room.entries, log, c.key, entry);
      TouchRecalls(room.entries[c.key := entry], log, c.key);
      TouchOrders(room.order, log, c.key);
      assert Remembered(room.entries, log, c.key);
    }
    OwnersKeepHolding(s, t, id);
  }

  lemma {:induction false} StoreKeepsInv(s: State, id: nat)
    requires Inv(s) && id in s.tasks && s.tasks[id].phase.Finished?
    ensures Inv(DoStore(s, id))
  {
    hide Record, AllRemembered, ByRecency, WellFormed, NoRepeats;
    var c, entry, t := s.tasks[id].command, s.tasks[id].phase.entry, DoStore(s, id);
    assert Holds(s.table.entries, s.tasks[id]) && Recordable(s.tasks[id]);
    RecordFacts(s.table, s.max, c.key, entry);
    KnownKeyIsListed(s.table, c.key);
    var i := IndexOf(s.table.order, c.key);
    RemoveAtFacts(s.table.order, i);
    RemovalKeepsOrder(s.table.order, s.log, i);
    var recorded := s.log + [Recorded(c.key, entry)];
    OtherEventKeepsOrder(RemoveAt(s.table.order, i), s.log, Recorded(c.key, entry));
    TouchOrders(RemoveAt(s.table.order, i), recorded, c.key);
    RecordRecalls(s.table.entries, s.log, c.key, entry);
    TouchRecalls(s.table.entries[c.key := entry], recorded, c.key);
    assert Owner(s.tasks[id]);
    OwnersKeepHolding(s, t, id);
  }

  // ----- every interleaving

  lemma {:induction false} StepKeepsInv(s: State, step: Step)
    requires Inv(s)
    ensures Inv(Do(s, step)) && Do(s, step).max == s.max
  {
    hide Inv;
    match step
    case Submit(id, command) =>
      if id !in s.tasks {
        SubmitKeepsInv(s, id, command);
      }
    case AskHook(id) =>
      if id in s.tasks && s.tasks[id].phase.Arrived? {
        if s.tasks[id].command.key in s.table.entries {
          AskKnownKeepsInv(s, id);
        } else {
          AskNewKeepsInv(s, id);
        }
      }
    case Begin(id, now) =>
      if id in s.tasks && s.tasks[id].phase.Owning? {
        BeginKeepsInv(s, id, now);
      }
    case End(id, outcome) =>
      if id in s.tasks && s.tasks[id].phase.Running? {
        MoveKeepsInv(s, id, Finished(EntryFor(s.tasks[id].command, outcome), ReplyForOutcome(outcome)));
      }
    case Store(id) =>
      if id in s.tasks && s.tasks[id].phase.Finished? {
        StoreKeepsInv(s, id);
      }
    case Abandon(id) =>
      if id in s.tasks && !s.tasks[id].phase.Answered? && !s.tasks[id].phase.Abandoned? {
        MoveKeepsInv(s, id, Abandoned(!s.tasks[id].phase.Arrived?));
      }
  }

  /** The invariant holds after every interleaving of dispatches, cancellations included. */
  lemma {:induction false} EveryRunKeepsInv(max: nat, steps: seq<Step>)
    requires max >= 1
    ensures Inv(Run(Init(max), steps)) && Run(Init(max), steps).max == max
  {
    if steps != [] {
      EveryRunKeepsInv(max, steps[..|steps| - 1]);
      StepKeepsInv(Run(Init(max), steps[..|steps| - 1]), steps[|steps| - 1]);
    }
  }
}
