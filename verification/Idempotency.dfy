/** The bounded in-memory idempotency table: an ordered dictionary from idempotency keys to entries. */
module Idempotency {
  import opened Common
  import opened Sequences

  datatype FailureKind =
    | UnknownCommandType | SchemaVersionMismatch | DeadlineExceeded | DuplicateCommandInProgress | IdempotencyConflict
    | IdempotencyRejected | HandlerRejected | HandlerError

  datatype CommandFailure = CommandFailure(kind: FailureKind, message: string, retryable: bool)

  datatype EntryStatus = InProgress | Completed | Failed

  datatype Entry = Entry(fingerprint: string, status: EntryStatus, result: Option<string>, failure: Option<CommandFailure>)

  datatype Decision =
    | Claimed
    | DuplicateCompleted(result: Option<string>)
    | DuplicateFailed(failure: CommandFailure)
    | DuplicateInProgress
    | Conflict
    | FailedWithoutMetadata
    | CapacityExhausted

  /** An `OrderedDict`: the keys from least to most recently touched, and the entries. */
  datatype Table = Table(order: seq<string>, entries: map<string, Entry>)

  ghost predicate WellFormed(t: Table) {
    && NoRepeats(t.order)
    && (forall k :: k in t.order <==> k in t.entries)
  }

  function IndexOf(order: seq<string>, key: string): (i: nat)
    requires key in order
    ensures i < |order| && order[i] == key
  {
    if order[0] == key then 0 else 1 + IndexOf(order[1..], key)
  }

  /** `move_to_end`. */
  function MoveToEnd(t: Table, key: string): Table
    requires key in t.order
  {
    t.(order := RemoveAt(t.order, IndexOf(t.order, key)) + [key])
  }

  /** `entries[key] = entry`: an existing key keeps its place, a new one goes last. */
  function Put(t: Table, key: string, entry: Entry): Table {
    Table(if key in t.order then t.order else t.order + [key], t.entries[key := entry])
  }

  predicate Terminal(t: Table, key: string) {
    key in t.entries && t.entries[key].status != InProgress
  }

  predicate Evictable(t: Table, key: string, protected: Option<string>) {
    Terminal(t, key) && protected != Some(key)
  }

  /** The place of the first key, from `from` on, that may be evicted. */
  function FirstEvictable(t: Table, protected: Option<string>, from: nat): (r: Option<nat>)
    requires from <= |t.order|
    ensures r.Some? ==> from <= r.value < |t.order| && Evictable(t, t.order[r.value], protected)
    ensures forall j :: from <= j < (if r.Some? then r.value else |t.order|) ==> !Evictable(t, t.order[j], protected)
    decreases |t.order| - from
  {
    if from == |t.order| then None
    else if Evictable(t, t.order[from], protected) then Some(from)
    else FirstEvictable(t, protected, from + 1)
  }

  function Evicted(t: Table, protected: Option<string>): Option<string> {
    var i := FirstEvictable(t, protected, 0);
    if i.Some? then Some(t.order[i.value]) else None
  }

  /** `_evict_oldest_terminal_entry`; the table is unchanged when nothing may be evicted. */
  function Evict(t: Table, protected: Option<string>): Table {
    var i := FirstEvictable(t, protected, 0);
    if i.None? then t else Table(RemoveAt(t.order, i.value), t.entries - {t.order[i.value]})
  }

  /** `_trim_to_capacity`. */
  function Trim(t: Table, max: nat, protected: string): Table
    decreases |t.order|
  {
    if |t.order| <= max || FirstEvictable(t, Some(protected), 0).None? then t
    else Trim(Evict(t, Some(protected)), max, protected)
  }

  function Decide(e: Entry, fingerprint: string): Decision {
    if e.fingerprint != fingerprint then Conflict
    else match e.status
      case InProgress => DuplicateInProgress
      case Completed => DuplicateCompleted(e.result)
      case Failed => if e.failure.None? then FailedWithoutMetadata else DuplicateFailed(e.failure.value)
  }

  /** Room is made only when a new key arrives at a full table. */
  function MakeRoom(t: Table, max: nat): Table {
    if |t.order| >= max then Evict(t, None) else t
  }

  function Claim(t: Table, max: nat, key: string, fingerprint: string): (Table, Decision) {
    if key in t.entries && key in t.order then (MoveToEnd(t, key), Decide(t.entries[key], fingerprint))
    else
      var room := MakeRoom(t, max);
      if |room.order| >= max then (room, CapacityExhausted)
      else (Put(room, key, Entry(fingerprint, InProgress, None, None)), Claimed)
  }

  function Record(t: Table, max: nat, key: string, entry: Entry): Table {
    Trim(MoveToEnd(Put(t, key, entry), key), max, key)
  }

  // ----- the hook object

  class InMemoryIdempotencyHook {
    const maxEntries: nat
    var order: seq<string>
    var entries: map<string, Entry>

    ghost predicate Valid()
      reads this
    {
      1 <= maxEntries && WellFormed(View())
    }

    function View(): Table
      reads this
    {
      Table(order, entries)
    }

    constructor (max: nat)
      requires max >= 1
      ensures Valid() && maxEntries == max && View() == Table([], map[])
    {
      maxEntries := max;
      order, entries := [], map[];
    }

    /** Construction with its check. */
    static method Create(max: int) returns (r: Option<InMemoryIdempotencyHook>)
      ensures r.Some? <==> max >= 1
      ensures r.Some? ==> fresh(r.value) && r.value.Valid() && r.value.maxEntries == max && r.value.View() == Table([], map[])
    {
      if max < 1 {
        return None;
      }
      var h := new InMemoryIdempotencyHook(max);
      return Some(h);
    }

    method EvictOldestTerminalEntry(protected: Option<string>) returns (removed: bool)
      requires Valid()
      modifies this
      ensures Valid()
      ensures View() == Evict(old(View()), protected)
      ensures removed <==> FirstEvictable(old(View()), protected, 0).Some?
    {
      EvictKeepsWellFormed(View(), protected);
      ghost var before := View();
      for i := 0 to |order|
        invariant View() == before
        invariant FirstEvictable(before, protected, 0) == FirstEvictable(before, protected, i)
      {
        var key := order[i];
        if protected == Some(key) || entries[key].status == InProgress {
          continue;
        }
        order, entries := RemoveAt(order, i), entries - {key};
        return true;
      }
      return false;
    }

    method TrimToCapacity(protected: string)
      requires Valid()
      modifies this
      ensures Valid()
      ensures View() == Trim(old(View()), maxEntries, protected)
    {
      while |order| > maxEntries
        invariant Valid()
        invariant Trim(View(), maxEntries, protected) == Trim(old(View()), maxEntries, protected)
        decreases |order|
      {
        var removed := EvictOldestTerminalEntry(Some(protected));
        if !removed {
          break;
        }
      }
    }

    method BeforeDispatch(key: string, fingerprint: string) returns (decision: Decision)
      requires Valid()
      modifies this
      ensures Valid()
      ensures (View(), decision) == Claim(old(View()), maxEntries, key, fingerprint)
    {
      if key in entries {
        MoveKeepsWellFormed(View(), key);
        order := RemoveAt(order, IndexOf(order, key)) + [key];
        return Decide(entries[key], fingerprint);
      }
      if |order| >= maxEntries {
        var _ := EvictOldestTerminalEntry(None);
      }
      if |order| >= maxEntries {
        return CapacityExhausted;
      }
      order, entries := order + [key], entries[key := Entry(fingerprint, InProgress, None, None)];
      return Claimed;
    }

    method RecordSuccess(key: string, fingerprint: string, result: Option<string>)
      requires Valid()
      modifies this
      ensures Valid()
      ensures View() == Record(old(View()), maxEntries, key, Entry(fingerprint, Completed, result, None))
    {
      RecordEntry(key, Entry(fingerprint, Completed, result, None));
    }

    method RecordFailure(key: string, fingerprint: string, failure: CommandFailure)
      requires Valid()
      modifies this
      ensures Valid()
      ensures View() == Record(old(View()), maxEntries, key, Entry(fingerprint, Failed, None, Some(failure)))
    {
      RecordEntry(key, Entry(fingerprint, Failed, None, Some(failure)));
    }

    /** The lock body that both recording operations share. */
    method RecordEntry(key: string, entry: Entry)
      requires Valid()
      modifies this
      ensures Valid()
      ensures View() == Record(old(View()), maxEntries, key, entry)
    {
      order, entries := (if key in order then order else order + [key]), entries[key := entry];
      MoveKeepsWellFormed(View(), key);
      order := RemoveAt(order, IndexOf(order, key)) + [key];
      TrimToCapacity(key);
    }
  }

  // ----- what the operations keep

  lemma {:induction false} MoveKeepsWellFormed(t: Table, key: string)
    requires WellFormed(t) && key in t.order
    ensures WellFormed(MoveToEnd(t, key))
    ensures |MoveToEnd(t, key).order| == |t.order|
  {
    RemoveAtFacts(t.order, IndexOf(t.order, key));
  }

  lemma {:induction false} EvictKeepsWellFormed(t: Table, protected: Option<string>)
    requires WellFormed(t)
    ensures WellFormed(Evict(t, protected))
  {
    var i := FirstEvictable(t, protected, 0);
    if i.Some? {
      RemoveAtFacts(t.order, i.value);
    }
  }

  /** A claim keeps the table within bounds; it evicts one terminal entry at most, and only for a new key. */
  lemma {:induction false} ClaimFacts(t: Table, max: nat, key: string, fingerprint: string)
    requires WellFormed(t) && 1 <= max && |t.order| <= max
    ensures var (u, d) := Claim(t, max, key, fingerprint);
            && WellFormed(u) && |u.order| <= max
            && (key in t.entries ==> key in t.order && u == MoveToEnd(t, key) && d == Decide(t.entries[key], fingerprint))
            && (key !in t.entries ==>
                  && (d == Claimed || d == CapacityExhausted)
                  && (d == CapacityExhausted <==> |t.order| == max && forall k :: k in t.entries ==> !Terminal(t, k))
                  && (d == CapacityExhausted ==> u == t)
                  && (d == Claimed ==> u.entries == MakeRoom(t, max).entries[key := Entry(fingerprint, InProgress, None, None)]
                                       && u.order == MakeRoom(t, max).order + [key]
                                       && key !in MakeRoom(t, max).order))
  {
    if key in t.entries {
      MoveKeepsWellFormed(t, key);
    } else {
      EvictKeepsWellFormed(t, None);
      if |t.order| >= max {
        var i := FirstEvictable(t, None, 0);
        if i.Some? {
          RemoveAtFacts(t.order, i.value);
        } else {
          forall k | k in t.entries
            ensures !Terminal(t, k)
          {
            assert k in t.order;
            var j :| 0 <= j < |t.order| && t.order[j] == k;
            assert !Evictable(t, t.order[j], None);
          }
        }
      }
    }
  }

  /** Recording against a claimed key replaces its entry, evicts nothing and makes it the most recent. */
  lemma {:induction false} RecordFacts(t: Table, max: nat, key: string, entry: Entry)
    requires WellFormed(t) && |t.order| <= max && key in t.entries
    ensures var u := Record(t, max, key, entry);
            && WellFormed(u) && |u.order| <= max
            && u == Table(MoveToEnd(t, key).order, t.entries[key := entry])
  {
    MoveKeepsWellFormed(Put(t, key, entry), key);
  }

  /** A new key is put last, so moving it to the end changes nothing. */
  lemma {:induction false} NewKeyIsLast(t: Table, key: string, entry: Entry)
    requires WellFormed(t) && key !in t.entries
    ensures WellFormed(Put(t, key, entry)) && MoveToEnd(Put(t, key, entry), key) == Put(t, key, entry)
  {
    var order := t.order + [key];
    assert key in order;
    var i := IndexOf(order, key);
    assert order[|t.order|] == key;
    assert i == |t.order|;
    assert RemoveAt(order, i) == t.order;
  }

  lemma {:induction false} TrimOneOver(t: Table, max: nat, protected: string)
    requires WellFormed(t) && |t.order| == max + 1
    ensures |Trim(t, max, protected).order| <= max <==> FirstEvictable(t, Some(protected), 0).Some?
  {
    var i := FirstEvictable(t, Some(protected), 0);
    if i.Some? {
      RemoveAtFacts(t.order, i.value);
    }
  }

  lemma {:induction false} EvictableIff(t: Table, key: string, entry: Entry)
    requires WellFormed(t) && key !in t.entries
    ensures FirstEvictable(Put(t, key, entry), Some(key), 0).Some? <==> exists k :: k in t.entries && Terminal(t, k)
  {
    var put := Put(t, key, entry);
    var i := FirstEvictable(put, Some(key), 0);
    if i.Some? {
      assert Terminal(t, put.order[i.value]);
    } else {
      forall k | k in t.entries
        ensures !Terminal(t, k)
      {
        assert k in t.order;
        var j :| 0 <= j < |t.order| && t.order[j] == k;
        assert !Evictable(put, put.order[j], Some(key));
      }
    }
  }

  /** Trimming removes terminal entries only, never the protected one, and no more than it has to. */
  lemma {:induction false} TrimKeeps(t: Table, max: nat, protected: string)
    requires WellFormed(t)
    ensures var u := Trim(t, max, protected);
            && WellFormed(u)
            && (forall k :: k in u.entries ==> k in t.entries && u.entries[k] == t.entries[k])
            && (forall k :: k in t.entries && (k == protected || t.entries[k].status == InProgress) ==> k in u.entries)
            && (|t.order| > max ==> |u.order| >= max)
            && (|t.order| <= max ==> u == t)
    decreases |t.order|
  {
    hide NoRepeats;
    var f := FirstEvictable(t, Some(protected), 0);
    if |t.order| > max && f.Some? {
      EvictKeepsWellFormed(t, Some(protected));
      assert |Evict(t, Some(protected)).order| == |t.order| - 1;
      TrimKeeps(Evict(t, Some(protected)), max, protected);
    }
  }

  /** The key may be evicted, and is gone. */
  predicate Gone(t: Table, u: Table, protected: string, key: string) {
    Evictable(t, key, Some(protected)) ==> key !in u.entries
  }

  /** Everything evictable that is older than a key that went, went too. */
  ghost predicate OldestFirst(t: Table, u: Table, protected: string) {
    forall i, j :: 0 <= i < j < |t.order| && t.order[j] !in u.entries ==> Gone(t, u, protected, t.order[i])
  }

  lemma {:induction false} TrimTakesOldest(t: Table, max: nat, protected: string)
    requires WellFormed(t)
    ensures OldestFirst(t, Trim(t, max, protected), protected)
    decreases |t.order|
  {
    TrimKeeps(t, max, protected);
    var f := FirstEvictable(t, Some(protected), 0);
    if |t.order| > max && f.Some? {
      var e, n := Evict(t, Some(protected)), f.value;
      EvictKeepsWellFormed(t, Some(protected));
      TrimKeeps(e, max, protected);
      TrimTakesOldest(e, max, protected);
      EvictedIsOldest(t, e, Trim(e, max, protected), n, protected);
    }
  }

  lemma {:induction false} EvictedIsOldest(t: Table, e: Table, u: Table, n: nat, protected: string)
    requires WellFormed(t) && n < |t.order| && e == Table(RemoveAt(t.order, n), t.entries - {t.order[n]})
    requires forall j :: 0 <= j < n ==> !Evictable(t, t.order[j], Some(protected))
    requires OldestFirst(e, u, protected) && forall k :: k in u.entries ==> k in e.entries
    ensures OldestFirst(t, u, protected)
  {
    hide WellFormed;
    forall i, j | 0 <= i < j < |t.order| && t.order[j] !in u.entries
      ensures Gone(t, u, protected, t.order[i])
    {
      if n < i {
        assert e.order[i - 1] == t.order[i] && e.order[j - 1] == t.order[j];
        assert Gone(e, u, protected, e.order[i - 1]);
      }
    }
  }

  /**
   The hook on its own can exceed its bound: recording stays within it exactly when the key is present, the table has
   room, or some entry is terminal.
   */
  lemma {:induction false} RecordStaysBoundedIff(t: Table, max: nat, key: string, entry: Entry)
    requires WellFormed(t) && |t.order| <= max
    ensures |Record(t, max, key, entry).order| <= max
        <==> key in t.entries || |t.order| < max || exists k :: k in t.entries && Terminal(t, k)
  {
    if key in t.entries {
      RecordFacts(t, max, key, entry);
    } else if |t.order| < max {
      NewKeyIsLast(t, key, entry);
    } else {
      NewKeyIsLast(t, key, entry);
      TrimOneOver(Put(t, key, entry), max, key);
      EvictableIff(t, key, entry);
    }
  }

  /** A hook of size one that has claimed a key holds two entries once an outcome is recorded for another key. */
  lemma {:induction false} RecordOutgrows(claimed: string, fingerprint: string, other: string, entry: Entry)
    requires claimed != other
    ensures var (t, d) := Claim(Table([], map[]), 1, claimed, fingerprint);
            d == Claimed && |t.order| == 1 && |Record(t, 1, other, entry).order| == 2
  {
    var t := Claim(Table([], map[]), 1, claimed, fingerprint).0;
    assert t == Table([claimed], map[claimed := Entry(fingerprint, InProgress, None, None)]);
    NewKeyIsLast(t, other, entry);
    EvictableIff(t, other, entry);
  }
}
