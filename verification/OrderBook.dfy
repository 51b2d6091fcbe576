/** Projecting order-book deltas onto a snapshot. */
module OrderBook {
  import opened Common
  import opened MarketData

  datatype BookError =
    | SnapshotInvalid | LineageMismatch | SequenceAmbiguous | SequenceMismatch | SequenceStale | SequenceGap
    | SequenceInvalid | ReasonInvalid

  /** The two price-indexed dictionaries of a projection in progress. */
  datatype Sides = Sides(bids: map<real, Level>, asks: map<real, Level>)

  function CheckSequence(s: Snapshot, d: Delta): Result<(), BookError> {
    if s.sequence.None? && (d.previousSequence.Some? || d.sequence.Some?) then Err(SequenceAmbiguous)
    else if s.sequence.Some? && d.sequence.None? then Err(SequenceAmbiguous)
    else if s.sequence.Some? && d.previousSequence.Some? && s.sequence.value != d.previousSequence.value then Err(SequenceMismatch)
    else if s.sequence.Some? && d.sequence.Some? && d.sequence.value <= s.sequence.value then Err(SequenceStale)
    else if s.sequence.Some? && d.sequence.Some? && d.sequence.value != s.sequence.value + 1 then Err(SequenceGap)
    else if d.previousSequence.Some? && d.sequence.Some? && d.sequence.value != d.previousSequence.value + 1 then Err(SequenceInvalid)
    else Ok(())
  }

  function CheckDelta(s: Snapshot, d: Delta, reason: string): Result<(), BookError> {
    if !s.isValid then Err(SnapshotInvalid)
    else if s.lineage != d.lineage then Err(LineageMismatch)
    else
      var _ :- CheckSequence(s, d);
      if !Trimmed(reason) then Err(ReasonInvalid) else Ok(())
  }

  /** `{level.price: level for level in levels}`. */
  function ByPrice(levels: seq<Level>): map<real, Level> {
    if levels == [] then map[]
    else ByPrice(levels[..|levels| - 1])[levels[|levels| - 1].price := levels[|levels| - 1]]
  }

  function Edit(target: map<real, Level>, c: Change): map<real, Level> {
    if c.action.Delete? || c.quantity == 0.0 then target - {c.price}
    else target[c.price := RawLevel.Level(c.price, c.quantity, None)]
  }

  function ApplyChange(b: Sides, c: Change): Sides {
    if c.side.Buy? then b.(bids := Edit(b.bids, c)) else b.(asks := Edit(b.asks, c))
  }

  function ApplyChanges(b: Sides, changes: seq<Change>): Sides {
    if changes == [] then b else ApplyChange(ApplyChanges(b, changes[..|changes| - 1]), changes[|changes| - 1])
  }

  // ----- sorting a dictionary by price

  lemma EmptyOrInhabited(keys: set<real>)
    ensures keys == {} || exists x :: x in keys
  {
    if forall x :: x !in keys {
      assert keys == {};
    }
  }

  predicate IsLeast(keys: set<real>, k: real) {
    k in keys && forall j :: j in keys ==> k <= j
  }

  lemma LeastOfBoth(keys: set<real>, x: real, k: real)
    requires x in keys && IsLeast(keys - {x}, k)
    ensures IsLeast(keys, if x <= k then x else k)
  {
    assert forall j :: j in keys ==> j == x || j in keys - {x};
  }

  lemma {:induction false} LeastExists(keys: set<real>)
    requires keys != {}
    ensures exists k :: IsLeast(keys, k)
    decreases |keys|
  {
    hide IsLeast;
    EmptyOrInhabited(keys);
    var x :| x in keys;
    var rest := keys - {x};
    if rest == {} {
      OnlyMember(keys, x);
    } else {
      LeastExists(rest);
      var k :| IsLeast(rest, k);
      LeastOfBoth(keys, x, k);
    }
  }

  lemma OnlyMember(keys: set<real>, x: real)
    requires x in keys && keys - {x} == {}
    ensures IsLeast(keys, x)
  {
    assert forall j :: j in keys ==> j == x || j in keys - {x};
  }

  function Least(keys: set<real>): (k: real)
    requires keys != {}
    ensures IsLeast(keys, k)
  {
    LeastExists(keys);
    var k :| IsLeast(keys, k);
    k
  }

  /** `sorted(levels.values(), key=price)`. */
  function SortedLevels(m: map<real, Level>): seq<Level>
    decreases |m|
  {
    if m == map[] then []
    else
      var k := Least(m.Keys);
      assert (m - {k}).Keys == m.Keys - {k};
      [m[k]] + SortedLevels(m - {k})
  }

  /** The same with `reverse=True`; prices are distinct. */
  function Reversed(levels: seq<Level>): (r: seq<Level>)
    ensures |r| == |levels| && forall i :: 0 <= i < |r| ==> r[i] == levels[|levels| - 1 - i]
  {
    seq(|levels|, i requires 0 <= i < |levels| => levels[|levels| - 1 - i])
  }

  /** Every level is filed under its own price. */
  predicate Keyed(m: map<real, Level>) {
    forall p :: p in m ==> m[p].price == p
  }

  predicate Shows(levels: seq<Level>, p: real) {
    exists i :: 0 <= i < |levels| && levels[i].price == p
  }

  /** `levels` and `m` hold the same levels. */
  ghost predicate Lists(levels: seq<Level>, m: map<real, Level>) {
    && (forall i :: 0 <= i < |levels| ==> levels[i].price in m && m[levels[i].price] == levels[i])
    && (forall p :: p in m ==> Shows(levels, p))
  }

  lemma LeastFirstLists(m: map<real, Level>, k: real, t: seq<Level>)
    requires Keyed(m) && k in m && Lists(t, m - {k})
    ensures Lists([m[k]] + t, m)
  {
    var levels := [m[k]] + t;
    forall p | p in m
      ensures Shows(levels, p)
    {
      if p == k {
        assert levels[0].price == p;
      } else {
        assert p in m - {k} && Shows(t, p);
        var i :| 0 <= i < |t| && t[i].price == p;
        assert levels[i + 1].price == p;
      }
    }
  }

  lemma LeastFirstAscends(m: map<real, Level>, k: real, t: seq<Level>)
    requires Keyed(m) && k in m && (forall j :: j in m ==> k <= j)
    requires Lists(t, m - {k}) && Ascending(t)
    ensures Ascending([m[k]] + t)
  {
    forall i | 0 <= i < |t|
      ensures k < t[i].price
    {
      assert t[i].price in m - {k};
    }
  }

  lemma {:induction false} SortedLevelsSorts(m: map<real, Level>)
    requires Keyed(m)
    ensures Lists(SortedLevels(m), m) && Ascending(SortedLevels(m))
    decreases |m|
  {
    hide Lists, Ascending;
    if m == map[] {
      EmptyLists();
    } else {
      var k := Least(m.Keys);
      assert (m - {k}).Keys == m.Keys - {k};
      SortedLevelsSorts(m - {k});
      LeastFirstLists(m, k, SortedLevels(m - {k}));
      LeastFirstAscends(m, k, SortedLevels(m - {k}));
    }
  }

  lemma EmptyLists()
    ensures Lists([], map[]) && Ascending([])
  {
  }

  lemma ReversedLists(levels: seq<Level>, m: map<real, Level>)
    requires Lists(levels, m) && Ascending(levels)
    ensures Lists(Reversed(levels), m) && Descending(Reversed(levels))
  {
    var r := Reversed(levels);
    forall p | p in m
      ensures Shows(r, p)
    {
      assert Shows(levels, p);
      var i :| 0 <= i < |levels| && levels[i].price == p;
      assert r[|levels| - 1 - i].price == p;
    }
  }

  lemma ListsDetermines(levels: seq<Level>, m: map<real, Level>, n: map<real, Level>)
    requires Lists(levels, m) && Lists(levels, n)
    ensures m == n
  {
    forall p | p in m
      ensures p in n && n[p] == m[p]
    {
      assert Shows(levels, p);
      var i :| 0 <= i < |levels| && levels[i].price == p;
    }
    forall p | p in n
      ensures p in m
    {
      assert Shows(levels, p);
      var i :| 0 <= i < |levels| && levels[i].price == p;
    }
  }

  /** Distinct prices: the dictionary loses nothing. */
  lemma {:induction false} ByPriceLists(levels: seq<Level>)
    requires forall i, j :: 0 <= i < j < |levels| ==> levels[i].price != levels[j].price
    ensures Lists(levels, ByPrice(levels)) && Keyed(ByPrice(levels))
  {
    if levels != [] {
      var front, last := levels[..|levels| - 1], levels[|levels| - 1];
      ByPriceLists(front);
      var m := ByPrice(levels);
      forall p | p in m
        ensures Shows(levels, p)
      {
        if p == last.price {
          assert levels[|levels| - 1].price == p;
        } else {
          assert Shows(front, p);
          var i :| 0 <= i < |front| && front[i].price == p;
          assert levels[i].price == p;
        }
      }
    }
  }

  // ----- applying deltas

  function Dictionaries(s: Snapshot): Sides {
    Sides(ByPrice(s.bids), ByPrice(s.asks))
  }

  ghost predicate AllKeyed(b: Sides) {
    Keyed(b.bids) && Keyed(b.asks)
  }

  lemma DictionariesKeyed(s: Snapshot)
    ensures AllKeyed(Dictionaries(s))
  {
    ByPriceLists(s.bids);
    ByPriceLists(s.asks);
  }

  lemma {:induction false} ChangesKeepKeyed(b: Sides, changes: seq<Change>)
    requires AllKeyed(b)
    ensures AllKeyed(ApplyChanges(b, changes))
  {
    if changes != [] {
      ChangesKeepKeyed(b, changes[..|changes| - 1]);
    }
  }

  /** The projected snapshot; its two sides are in order, so the schema accepts it. */
  function Rebuilt(s: Snapshot, d: Delta, b: Sides, reason: string): Snapshot
    requires AllKeyed(b)
  {
    SortedLevelsSorts(b.bids);
    SortedLevelsSorts(b.asks);
    ReversedLists(SortedLevels(b.bids), b.bids);
    RawSnapshot.Snapshot(s.lineage, if d.sequence.Some? then d.sequence else s.sequence, d.exchangeOccurredAt, d.receivedAt,
                         Reversed(SortedLevels(b.bids)), SortedLevels(b.asks), true, reason)
  }

  function ApplyDelta(s: Snapshot, d: Delta, reason: string): Result<Snapshot, BookError> {
    var _ :- CheckDelta(s, d, reason);
    DictionariesKeyed(s);
    ChangesKeepKeyed(Dictionaries(s), d.changes);
    Ok(Rebuilt(s, d, ApplyChanges(Dictionaries(s), d.changes), reason))
  }

  function ApplyDeltas(s: Snapshot, deltas: seq<Delta>, reason: string): Result<Snapshot, BookError> {
    if deltas == [] then Ok(s)
    else
      var t :- ApplyDeltas(s, deltas[..|deltas| - 1], reason);
      ApplyDelta(t, deltas[|deltas| - 1], reason)
  }

  /** `apply_order_book_delta`: the changes edit two dictionaries in turn. */
  method ApplyOrderBookDelta(s: Snapshot, d: Delta, reason: string) returns (r: Result<Snapshot, BookError>)
    ensures r == ApplyDelta(s, d, reason)
  {
    hide Rebuilt, SortedLevels, ByPrice;
    var checked := CheckDelta(s, d, reason);
    if checked.Err? {
      return Err(checked.error);
    }
    DictionariesKeyed(s);
    var bids, asks := ByPrice(s.bids), ByPrice(s.asks);
    for i := 0 to |d.changes|
      invariant Sides(bids, asks) == ApplyChanges(Dictionaries(s), d.changes[..i])
    {
      assert d.changes[..i + 1][..i] == d.changes[..i];
      if d.changes[i].side.Buy? {
        bids := Edit(bids, d.changes[i]);
      } else {
        asks := Edit(asks, d.changes[i]);
      }
    }
    assert d.changes[..|d.changes|] == d.changes;
    ChangesKeepKeyed(Dictionaries(s), d.changes);
    r := Ok(Rebuilt(s, d, Sides(bids, asks), reason));
  }

  /** `apply_order_book_deltas`. */
  method ApplyOrderBookDeltas(s: Snapshot, deltas: seq<Delta>, reason: string) returns (r: Result<Snapshot, BookError>)
    ensures r == ApplyDeltas(s, deltas, reason)
  {
    hide ApplyDelta;
    var projected := s;
    for i := 0 to |deltas|
      invariant ApplyDeltas(s, deltas[..i], reason) == Ok(projected)
    {
      assert deltas[..i + 1][..i] == deltas[..i];
      var next := ApplyOrderBookDelta(projected, deltas[i], reason);
      if next.Err? {
        StopsAtFirstError(s, deltas, i + 1, reason);
        return Err(next.error);
      }
      projected := next.value;
    }
    assert deltas[..|deltas|] == deltas;
    r := Ok(projected);
  }

  lemma {:induction false} StopsAtFirstError(s: Snapshot, deltas: seq<Delta>, i: nat, reason: string)
    requires i <= |deltas| && ApplyDeltas(s, deltas[..i], reason).Err?
    ensures ApplyDeltas(s, deltas, reason) == ApplyDeltas(s, deltas[..i], reason)
    decreases |deltas|
  {
    hide ApplyDelta;
    if i == |deltas| {
      assert deltas[..i] == deltas;
    } else {
      var front := deltas[..|deltas| - 1];
      assert front[..i] == deltas[..i];
      StopsAtFirstError(s, front, i, reason);
    }
  }

  // ----- last write wins

  function SideOf(b: Sides, side: Side): map<real, Level> {
    if side.Buy? then b.bids else b.asks
  }

  function Lookup(m: map<real, Level>, price: real): Option<Level> {
    if price in m then Some(m[price]) else None
  }

  /** What a snapshot displays at one price of one side. */
  function LevelAt(s: Snapshot, side: Side, price: real): Option<Level> {
    Lookup(SideOf(Dictionaries(s), side), price)
  }

  /** The last change to one price of one side. */
  function LastChange(changes: seq<Change>, side: Side, price: real): Option<Change> {
    if changes == [] then None
    else
      var c := changes[|changes| - 1];
      if c.side == side && c.price == price then Some(c) else LastChange(changes[..|changes| - 1], side, price)
  }

  /** The level that a last change leaves, given what was there before the first. */
  function Written(last: Option<Change>, before: Option<Level>): Option<Level> {
    if last.None? then before
    else if last.value.action.Delete? || last.value.quantity == 0.0 then None
    else Some(RawLevel.Level(last.value.price, last.value.quantity, None))
  }

  lemma {:induction false} ChangesAreLastWriteWins(b: Sides, changes: seq<Change>, side: Side, price: real)
    ensures Lookup(SideOf(ApplyChanges(b, changes), side), price)
         == Written(LastChange(changes, side, price), Lookup(SideOf(b, side), price))
  {
    if changes != [] {
      ChangesAreLastWriteWins(b, changes[..|changes| - 1], side, price);
    }
  }

  function AllChanges(deltas: seq<Delta>): seq<Change> {
    if deltas == [] then [] else AllChanges(deltas[..|deltas| - 1]) + deltas[|deltas| - 1].changes
  }

  lemma {:induction false} ApplyChangesConcat(b: Sides, u: seq<Change>, v: seq<Change>)
    ensures ApplyChanges(b, u + v) == ApplyChanges(ApplyChanges(b, u), v)
  {
    if v == [] {
      assert u + v == u;
    } else {
      ApplyChangesConcat(b, u, v[..|v| - 1]);
      assert (u + v)[..|u + v| - 1] == u + v[..|v| - 1];
    }
  }

  /** Rebuilding the dictionaries of a projected snapshot gives back the dictionaries it was built from. */
  lemma RebuiltDictionaries(s: Snapshot, d: Delta, b: Sides, reason: string)
    requires AllKeyed(b)
    ensures Dictionaries(Rebuilt(s, d, b, reason)) == b
  {
    var t := Rebuilt(s, d, b, reason);
    SortedLevelsSorts(b.bids);
    SortedLevelsSorts(b.asks);
    ReversedLists(SortedLevels(b.bids), b.bids);
    ByPriceLists(t.bids);
    ByPriceLists(t.asks);
    ListsDetermines(t.bids, ByPrice(t.bids), b.bids);
    ListsDetermines(t.asks, ByPrice(t.asks), b.asks);
  }

  /** Deltas applied one by one, each through a sorted snapshot, equal one pass over all their changes. */
  lemma {:induction false} DeltasEqualOnePass(s: Snapshot, deltas: seq<Delta>, reason: string)
    requires ApplyDeltas(s, deltas, reason).Ok?
    ensures Dictionaries(ApplyDeltas(s, deltas, reason).value) == ApplyChanges(Dictionaries(s), AllChanges(deltas))
  {
    hide Rebuilt, Dictionaries;
    if deltas != [] {
      var front, d := deltas[..|deltas| - 1], deltas[|deltas| - 1];
      DeltasEqualOnePass(s, front, reason);
      var t := ApplyDeltas(s, front, reason).value;
      DictionariesKeyed(t);
      ChangesKeepKeyed(Dictionaries(t), d.changes);
      RebuiltDictionaries(t, d, ApplyChanges(Dictionaries(t), d.changes), reason);
      ApplyChangesConcat(Dictionaries(s), AllChanges(front), d.changes);
    }
  }

  /** Every price of an accepted projection shows what the last change to it wrote, or what the snapshot had. */
  lemma LastWriteWins(s: Snapshot, deltas: seq<Delta>, reason: string, side: Side, price: real)
    requires ApplyDeltas(s, deltas, reason).Ok?
    ensures LevelAt(ApplyDeltas(s, deltas, reason).value, side, price)
         == Written(LastChange(AllChanges(deltas), side, price), LevelAt(s, side, price))
  {
    hide ApplyDeltas, Dictionaries;
    DeltasEqualOnePass(s, deltas, reason);
    ChangesAreLastWriteWins(Dictionaries(s), AllChanges(deltas), side, price);
  }

  /** No projection gains an empty level: one that shows quantity zero was there from the start. */
  lemma NoEmptyLevelGained(s: Snapshot, deltas: seq<Delta>, reason: string, side: Side, price: real)
    requires ApplyDeltas(s, deltas, reason).Ok?
    ensures var level := LevelAt(ApplyDeltas(s, deltas, reason).value, side, price);
            level.Some? && level.value.quantity == 0.0 ==> level == LevelAt(s, side, price)
  {
    hide ApplyDeltas, Dictionaries;
    LastWriteWins(s, deltas, reason, side, price);
  }

  // ----- sequence numbers

  /** The sequence checks together: both unsequenced, or the delta carries the next number and says so. */
  lemma SequenceAcceptedIff(s: Snapshot, d: Delta)
    ensures CheckSequence(s, d).Ok? <==>
              if s.sequence.None? then d.sequence.None? && d.previousSequence.None?
              else d.sequence == Some(s.sequence.value + 1) && (d.previousSequence.None? || d.previousSequence == s.sequence)
  {
  }

  lemma {:induction false} SequenceAdvances(s: Snapshot, deltas: seq<Delta>, reason: string)
    requires ApplyDeltas(s, deltas, reason).Ok?
    ensures var t := ApplyDeltas(s, deltas, reason).value;
            if s.sequence.None? then t.sequence.None? else t.sequence == Some(s.sequence.value + |deltas|)
  {
    hide SortedLevels, ByPrice, ApplyChanges;
    if deltas != [] {
      SequenceAdvances(s, deltas[..|deltas| - 1], reason);
      SequenceAcceptedIff(ApplyDeltas(s, deltas[..|deltas| - 1], reason).value, deltas[|deltas| - 1]);
    }
  }

  // ----- acceptance and metadata

  /** A delta that follows the snapshot: neither is sequenced, or the delta has the next number and names the right predecessor or none. */
  predicate Follows(sequence: Option<nat>, d: Delta) {
    if sequence.None? then d.sequence.None? && d.previousSequence.None?
    else d.sequence == Some(sequence.value + 1) && (d.previousSequence.None? || d.previousSequence == sequence)
  }

  /** When one delta is accepted, and everything that the new snapshot says besides its levels. */
  lemma DeltaAcceptedIff(s: Snapshot, d: Delta, reason: string)
    ensures var r := ApplyDelta(s, d, reason);
            && (r.Ok? <==>
                  s.isValid && s.lineage == d.lineage && Follows(s.sequence, d)
                  && reason != "" && reason[0] !in {' ', '\t', '\n', '\r'} && reason[|reason| - 1] !in {' ', '\t', '\n', '\r'})
            && (r.Ok? ==>
                  var t := r.value;
                  && t.lineage == s.lineage && t.isValid && t.reason == reason
                  && t.sequence == d.sequence
                  && t.exchangeOccurredAt == d.exchangeOccurredAt && t.receivedAt == d.receivedAt)
  {
    hide ApplyChanges, Dictionaries, SortedLevels;
    SequenceAcceptedIff(s, d);
  }

  /** The `i`-th of a list of deltas follows the snapshot that the list starts from. */
  predicate FollowsAt(s: Snapshot, d: Delta, i: nat) {
    && d.lineage == s.lineage
    && Follows(if s.sequence.None? then None else Some(s.sequence.value + i), d)
  }

  /**
   A list of deltas is accepted if and only if it is empty, or the snapshot is valid, the reason is usable and the deltas
   follow one another from the snapshot on. The result is of the last of them.
   */
  lemma {:induction false} DeltasAcceptedIff(s: Snapshot, deltas: seq<Delta>, reason: string)
    ensures var r := ApplyDeltas(s, deltas, reason);
            && (r.Ok? <==>
                  deltas == [] ||
                  (s.isValid
                   && reason != "" && reason[0] !in {' ', '\t', '\n', '\r'} && reason[|reason| - 1] !in {' ', '\t', '\n', '\r'}
                   && forall i :: 0 <= i < |deltas| ==> FollowsAt(s, deltas[i], i)))
            && (deltas == [] ==> r == Ok(s))
            && (r.Ok? && deltas != [] ==>
                  var t, last := r.value, deltas[|deltas| - 1];
                  && t.lineage == s.lineage && t.isValid && t.reason == reason
                  && t.sequence == (if s.sequence.None? then None else Some(s.sequence.value + |deltas|))
                  && t.exchangeOccurredAt == last.exchangeOccurredAt && t.receivedAt == last.receivedAt)
  {
    hide ApplyDelta;
    if deltas != [] {
      var front := deltas[..|deltas| - 1];
      DeltasAcceptedIff(s, front, reason);
      var mid := ApplyDeltas(s, front, reason);
      if mid.Ok? {
        DeltaAcceptedIff(mid.value, deltas[|deltas| - 1], reason);
      }
    }
  }
}
