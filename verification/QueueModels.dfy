/** Queue position of a simulated order, and how it relates to the fill models. */
module QueueModels {
  import opened Common
  import opened MarketData
  import opened FillModels

  datatype QueueEstimate = QueueEstimate(
    side: Side, price: real, quantity: real, volumeAhead: real, queuePosition: real, crossesSpread: bool, restsOnBook: bool)

  predicate CrossesSpread(s: Snapshot, side: Side, price: real) {
    match side
    case Buy => s.asks != [] && price >= s.asks[0].price
    case Sell => s.bids != [] && price <= s.bids[0].price
  }

  function SameSide(s: Snapshot, side: Side): seq<Level> {
    if side.Buy? then s.bids else s.asks
  }

  /** The displayed quantity at prices at least as good, on the order's own side. */
  function VolumeAt(levels: seq<Level>, side: Side, price: real): real {
    if levels == [] then 0.0
    else (if (if side.Buy? then levels[0].price >= price else levels[0].price <= price) then levels[0].quantity else 0.0)
         + VolumeAt(levels[1..], side, price)
  }

  function CheckOrder(s: Snapshot, price: real, quantity: real): Result<(), FillError> {
    if !s.isValid then Err(SnapshotInvalid)
    else if price < 0.0 then Err(NegativeLimit)
    else if quantity <= 0.0 then Err(NonpositiveQuantity)
    else Ok(())
  }

  /** `VolumeAheadQueueModel.estimate`. */
  function VolumeAhead(s: Snapshot, side: Side, price: real, quantity: real): Result<QueueEstimate, FillError> {
    var _ :- CheckOrder(s, price, quantity);
    var crosses := CrossesSpread(s, side, price);
    var ahead := if crosses then 0.0 else VolumeAt(SameSide(s, side), side, price);
    Ok(QueueEstimate(side, price, quantity, ahead, ahead, crosses, !crosses))
  }

  function Contra(side: Side): Side {
    if side.Buy? then Sell else Buy
  }

  /** When a queue estimate is given, and what it says: an order that crosses has nothing ahead of it and does not rest. */
  lemma {:induction false} QueueEstimateIs(s: Snapshot, side: Side, price: real, quantity: real)
    ensures var r := VolumeAhead(s, side, price, quantity);
            && (r.Ok? <==> s.isValid && price >= 0.0 && quantity > 0.0)
            && (r.Ok? ==>
                  var q := r.value;
                  && q.side == side && q.price == price && q.quantity == quantity
                  && (q.crossesSpread <==>
                        if side.Buy? then exists i :: 0 <= i < |s.asks| && s.asks[i].price <= price
                        else exists i :: 0 <= i < |s.bids| && price <= s.bids[i].price)
                  && q.restsOnBook == !q.crossesSpread
                  && q.queuePosition == q.volumeAhead
                  && (q.crossesSpread ==> q.volumeAhead == 0.0)
                  && (!q.crossesSpread ==>
                        q.volumeAhead == if side.Buy? then QuantityFrom(s.bids, l => l >= price) else QuantityFrom(s.asks, l => l <= price)))
  {
    var r := VolumeAhead(s, side, price, quantity);
    if r.Ok? && !r.value.crossesSpread {
      VolumeIsQuantity(SameSide(s, side), side, price);
    }
  }

  /** The quantity displayed at the prices that pass. */
  function QuantityFrom(levels: seq<Level>, passes: real -> bool): real {
    if levels == [] then 0.0
    else QuantityFrom(levels[..|levels| - 1], passes) + if passes(levels[|levels| - 1].price) then levels[|levels| - 1].quantity else 0.0
  }

  lemma {:induction false} QuantityFromFront(levels: seq<Level>, passes: real -> bool)
    requires levels != []
    ensures QuantityFrom(levels, passes)
         == (if passes(levels[0].price) then levels[0].quantity else 0.0) + QuantityFrom(levels[1..], passes)
  {
    var n := |levels| - 1;
    if n == 0 {
      assert levels[..0] == [] && levels[1..] == [];
    } else {
      QuantityFromFront(levels[..n], passes);
      assert levels[..n][1..] == levels[1..][..n - 1];
    }
  }

  lemma {:induction false} VolumeIsQuantity(levels: seq<Level>, side: Side, price: real)
    ensures side.Buy? ==> VolumeAt(levels, side, price) == QuantityFrom(levels, l => l >= price)
    ensures side.Sell? ==> VolumeAt(levels, side, price) == QuantityFrom(levels, l => l <= price)
  {
    if levels != [] {
      VolumeIsQuantity(levels[1..], side, price);
      QuantityFromFront(levels, l => l >= price);
      QuantityFromFront(levels, l => l <= price);
    }
  }

  lemma {:induction false} VolumeIsContraDepth(levels: seq<Level>, side: Side, price: real)
    ensures VolumeAt(levels, side, price) == ExecutableDepth(levels, Contra(side), price, true)
  {
    if levels != [] {
      VolumeIsContraDepth(levels[1..], side, price);
    }
  }

  /**
   The volume ahead of a resting order is what an opposite order at the same limit fills before reaching it: the touch
   model fills the smaller of the two.
   */
  lemma VolumeAheadFillsFirst(s: Snapshot, side: Side, price: real, quantity: real, contraQuantity: real)
    requires contraQuantity > 0.0
    requires VolumeAhead(s, side, price, quantity).Ok? && !CrossesSpread(s, side, price)
    ensures Filled(Walk(Opposite(s, Contra(side)), contraQuantity, Contra(side), price, true))
         == Min(contraQuantity, VolumeAhead(s, side, price, quantity).value.volumeAhead)
  {
    OppositeIsBestFirst(s, Contra(side));
    WalkFillsAll(Opposite(s, Contra(side)), contraQuantity, Contra(side), price, true);
    VolumeIsContraDepth(SameSide(s, side), side, price);
  }

  // ----- crossing and filling

  /** Some displayed quantity can execute. */
  predicate HasExecutableQuantity(levels: seq<Level>, side: Side, limit: real) {
    exists i :: 0 <= i < |levels| && Executable(side, limit, levels[i].price, true) && levels[i].quantity > 0.0
  }

  lemma {:induction false} DepthPositiveIff(levels: seq<Level>, side: Side, limit: real)
    ensures ExecutableDepth(levels, side, limit, true) > 0.0 <==> HasExecutableQuantity(levels, side, limit)
  {
    if levels != [] {
      DepthPositiveIff(levels[1..], side, limit);
      DepthNonnegative(levels[1..], side, limit, true);
      if HasExecutableQuantity(levels[1..], side, limit) {
        var i :| 0 <= i < |levels[1..]| && Executable(side, limit, levels[1..][i].price, true) && levels[1..][i].quantity > 0.0;
        assert levels[i + 1] == levels[1..][i];
      }
      if HasExecutableQuantity(levels, side, limit) && !(Executable(side, limit, levels[0].price, true) && levels[0].quantity > 0.0) {
        var i :| 0 <= i < |levels| && Executable(side, limit, levels[i].price, true) && levels[i].quantity > 0.0;
        assert levels[1..][i - 1] == levels[i];
      }
    }
  }

  /** The touch model fills something exactly when some executable level displays quantity. */
  lemma FillsIff(s: Snapshot, side: Side, price: real, quantity: real)
    requires quantity > 0.0
    ensures Filled(Walk(Opposite(s, side), quantity, side, price, true)) > 0.0
        <==> HasExecutableQuantity(Opposite(s, side), side, price)
  {
    OppositeIsBestFirst(s, side);
    WalkFillsAll(Opposite(s, side), quantity, side, price, true);
    DepthPositiveIff(Opposite(s, side), side, price);
  }

  /**
   The queue model's crossing test agrees with the touch model unless the order crosses and every executable level
   is empty; in particular it agrees on books without empty levels.
   */
  lemma CrossesIffFills(s: Snapshot, side: Side, price: real, quantity: real)
    requires quantity > 0.0
    ensures var levels := Opposite(s, side);
            var fills := Filled(Walk(levels, quantity, side, price, true)) > 0.0;
            && ((CrossesSpread(s, side, price) <==> fills) <==>
                (CrossesSpread(s, side, price) ==> HasExecutableQuantity(levels, side, price)))
            && ((forall i :: 0 <= i < |levels| ==> levels[i].quantity > 0.0) ==> (CrossesSpread(s, side, price) <==> fills))
  {
    var levels := Opposite(s, side);
    OppositeIsBestFirst(s, side);
    FillsIff(s, side, price, quantity);
    if HasExecutableQuantity(levels, side, price) {
      var i :| 0 <= i < |levels| && Executable(side, price, levels[i].price, true) && levels[i].quantity > 0.0;
      assert i > 0 ==> Rank(side, levels[0].price) < Rank(side, levels[i].price);
    }
    if CrossesSpread(s, side, price) && levels[0].quantity > 0.0 {
      assert Executable(side, price, levels[0].price, true);
    }
  }

  /** A buy at 1 against a book whose only ask, at 1, is empty: the queue model says it crosses, the touch model fills nothing. */
  lemma EmptyLevelCrossesWithoutFilling(quantity: real)
    requires quantity > 0.0
    ensures var s: Snapshot := RawSnapshot.Snapshot(Lineage("", "", ""), None, None, 0, [], [RawLevel.Level(1.0, 0.0, None)], true, "initial");
            CrossesSpread(s, Buy, 1.0) && Filled(Walk(Opposite(s, Buy), quantity, Buy, 1.0, true)) == 0.0
  {
    var s: Snapshot := RawSnapshot.Snapshot(Lineage("", "", ""), None, None, 0, [], [RawLevel.Level(1.0, 0.0, None)], true, "initial");
    FillsIff(s, Buy, 1.0, quantity);
    OppositeIsBestFirst(s, Buy);
    WalkFillsAll(Opposite(s, Buy), quantity, Buy, 1.0, true);
    DepthNonnegative(Opposite(s, Buy), Buy, 1.0, true);
  }
}
