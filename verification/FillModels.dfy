/** The greedy walk over displayed depth that simulates fills of limit orders. */
module FillModels {
  import opened Common
  import opened MarketData
  import opened Reals

  datatype LiquidityRole = Maker | Taker | UnknownRole

  datatype Component = Component(price: real, quantity: real, role: LiquidityRole)

  datatype Reason = NoFill | PartialFill | FullFill

  datatype FillError = SnapshotInvalid | NegativeLimit | NonpositiveQuantity

  /** `touch` distinguishes the touch model from the trade-through model. */
  datatype Estimate = Estimate(
    side: Side, limit: real, orderQuantity: real, filledQuantity: real, remainingQuantity: real,
    averagePrice: Option<real>, role: LiquidityRole, components: seq<Component>, reason: Reason, touch: bool)

  predicate Executable(side: Side, limit: real, price: real, touch: bool) {
    match side
    case Buy => if touch then price <= limit else price < limit
    case Sell => if touch then price >= limit else price > limit
  }

  function Opposite(s: Snapshot, side: Side): seq<Level> {
    if side.Buy? then s.asks else s.bids
  }

  function Filled(components: seq<Component>): real {
    if components == [] then 0.0 else components[0].quantity + Filled(components[1..])
  }

  function Notional(components: seq<Component>): real {
    if components == [] then 0.0 else Value(components[0].quantity, components[0].price) + Notional(components[1..])
  }

  function AveragePrice(components: seq<Component>): Option<real> {
    if Filled(components) == 0.0 then None else Some(Notional(components) / Filled(components))
  }

  function ReasonFor(filled: real, total: real): Reason {
    if filled == 0.0 then NoFill else if filled < total then PartialFill else FullFill
  }

  function Min(x: real, y: real): real {
    if x <= y then x else y
  }

  /** The components that the walk takes from `levels` for `remaining` units. */
  function Walk(levels: seq<Level>, remaining: real, side: Side, limit: real, touch: bool): seq<Component> {
    if levels == [] || remaining == 0.0 || !Executable(side, limit, levels[0].price, touch) then []
    else
      var take := Min(remaining, levels[0].quantity);
      if take == 0.0 then Walk(levels[1..], remaining, side, limit, touch)
      else [Component(levels[0].price, take, Taker)] + Walk(levels[1..], remaining - take, side, limit, touch)
  }

  function EstimateOf(side: Side, limit: real, quantity: real, touch: bool, components: seq<Component>, remaining: real): Estimate {
    Estimate(side, limit, quantity, quantity - remaining, remaining, AveragePrice(components),
             if components != [] then Taker else UnknownRole, components, ReasonFor(quantity - remaining, quantity), touch)
  }

  /** The loop of `_estimate_book_fill`: it stops at the first price that cannot execute and skips empty levels. */
  method WalkBook(levels: seq<Level>, quantity: real, side: Side, limit: real, touch: bool)
    returns (components: seq<Component>, remaining: real)
    ensures components == Walk(levels, quantity, side, limit, touch)
    ensures remaining == quantity - Filled(components)
  {
    hide Filled, Executable, Min;
    remaining := quantity;
    components := [];
    FilledNothing();
    ghost var whole := Walk(levels, quantity, side, limit, touch);
    var i := 0;
    while i < |levels|
      invariant 0 <= i <= |levels|
      invariant remaining == quantity - Filled(components)
      invariant whole == components + Walk(levels[i..], remaining, side, limit, touch)
    {
      var level := levels[i];
      assert levels[i..][0] == level && levels[i..][1..] == levels[i + 1..];
      if remaining == 0.0 || !Executable(side, limit, level.price, touch) {
        assert whole == components;
        return;
      }
      var take := Min(remaining, level.quantity);
      i := i + 1;
      if take != 0.0 {
        var component := Component(level.price, take, Taker);
        FilledSnoc(components, component);
        remaining := remaining - take;
        ghost var rest := Walk(levels[i..], remaining, side, limit, touch);
        assert components + ([component] + rest) == (components + [component]) + rest;
        components := components + [component];
      }
    }
    assert whole == components;
  }

  /**
   What an estimate says of an order against the opposite levels: how much of the order filled and how much is left, at which
   average price, in which role and for which reason.
   */
  ghost predicate Describes(e: Estimate, levels: seq<Level>, side: Side, limit: real, quantity: real, touch: bool) {
    var depth := ExecutableDepth(levels, side, limit, touch);
    && e.side == side && e.limit == limit && e.orderQuantity == quantity && e.touch == touch
    && e.filledQuantity == Filled(e.components)
    && e.filledQuantity == (if quantity <= depth then quantity else depth)
    && e.filledQuantity + e.remainingQuantity == quantity
    && Averages(e.averagePrice, e.filledQuantity, Notional(e.components))
    && (e.role == Taker <==> e.filledQuantity > 0.0) && (e.role == UnknownRole <==> e.filledQuantity == 0.0)
    && (e.reason == NoFill <==> e.filledQuantity == 0.0)
    && (e.reason == PartialFill <==> 0.0 < e.filledQuantity < quantity)
    && (e.reason == FullFill <==> e.filledQuantity == quantity)
    && Takes(e.components, levels, side, limit, quantity, touch)
  }

  /** An average exists when something filled, and times the quantity it gives the notional. */
  predicate Averages(average: Option<real>, filled: real, notional: real) {
    && (average.Some? <==> filled > 0.0)
    && (average.Some? ==> average.value * filled == notional)
  }

  /** A displayed level that the order reaches: up to its limit when touching suffices, strictly within it otherwise. */
  predicate Reached(level: Level, side: Side, limit: real, touch: bool) {
    && level.quantity > 0.0
    && (side.Buy? && touch ==> level.price <= limit)
    && (side.Buy? && !touch ==> level.price < limit)
    && (side.Sell? && touch ==> level.price >= limit)
    && (side.Sell? && !touch ==> level.price > limit)
  }

  /**
   The components take from reached levels only, no more than each displays, best price first and no price twice; and an
   order that is not filled has taken all that every reached level displays.
   */
  ghost predicate Takes(components: seq<Component>, levels: seq<Level>, side: Side, limit: real, quantity: real, touch: bool) {
    && BetterFirst(components, side)
    && (forall i :: 0 <= i < |components| ==> components[i].quantity > 0.0 && components[i].role == Taker)
    && AllDisplayed(components, levels, side, limit, touch)
    && (Filled(components) < quantity ==> AllTaken(components, levels, side, limit, touch))
  }

  predicate BetterFirst(components: seq<Component>, side: Side) {
    forall i, j :: 0 <= i < j < |components| ==>
      if side.Buy? then components[i].price < components[j].price else components[i].price > components[j].price
  }

  ghost predicate AllDisplayed(components: seq<Component>, levels: seq<Level>, side: Side, limit: real, touch: bool) {
    forall c :: c in components ==> exists l :: l in levels && Reached(l, side, limit, touch) && TakenFrom(c, l)
  }

  ghost predicate AllTaken(components: seq<Component>, levels: seq<Level>, side: Side, limit: real, touch: bool) {
    forall l :: l in levels && Reached(l, side, limit, touch) ==> Component(l.price, l.quantity, Taker) in components
  }

  predicate TakenFrom(c: Component, l: Level) {
    c.price == l.price && c.quantity <= l.quantity
  }

  /** `_estimate_book_fill`. */
  method EstimateBookFill(s: Snapshot, side: Side, limit: real, quantity: real, touch: bool)
    returns (r: Result<Estimate, FillError>)
    ensures r.Ok? <==> s.isValid && limit >= 0.0 && quantity > 0.0
    ensures r.Err? ==> r.error == if !s.isValid then SnapshotInvalid else if limit < 0.0 then NegativeLimit else NonpositiveQuantity
    ensures r.Ok? ==>
              var components := Walk(Opposite(s, side), quantity, side, limit, touch);
              r.value == EstimateOf(side, limit, quantity, touch, components, quantity - Filled(components))
    ensures r.Ok? ==> Describes(r.value, if side.Buy? then s.asks else s.bids, side, limit, quantity, touch)
  {
    if !s.isValid {
      return Err(SnapshotInvalid);
    }
    if limit < 0.0 {
      return Err(NegativeLimit);
    }
    if quantity <= 0.0 {
      return Err(NonpositiveQuantity);
    }
    var components, remaining := WalkBook(Opposite(s, side), quantity, side, limit, touch);
    r := Ok(EstimateOf(side, limit, quantity, touch, components, remaining));
    EstimateDescribes(s, side, limit, quantity, touch);
  }

  lemma FilledNothing()
    ensures Filled([]) == 0.0
  {
  }

  lemma {:induction false} FilledSnoc(components: seq<Component>, c: Component)
    ensures Filled(components + [c]) == Filled(components) + c.quantity
  {
    if components == [] {
      assert [c][1..] == [];
    } else {
      FilledSnoc(components[1..], c);
      assert (components + [c])[1..] == components[1..] + [c];
    }
  }

  // ----- one order for both sides: better prices have smaller keys

  function Rank(side: Side, price: real): real {
    if side.Buy? then price else -price
  }

  /** Best price first. */
  predicate BestFirst(levels: seq<Level>, side: Side) {
    forall i, j :: 0 <= i < j < |levels| ==> Rank(side, levels[i].price) < Rank(side, levels[j].price)
  }

  lemma OppositeIsBestFirst(s: Snapshot, side: Side)
    ensures BestFirst(Opposite(s, side), side)
  {
  }

  /** Total displayed quantity at executable prices. */
  function ExecutableDepth(levels: seq<Level>, side: Side, limit: real, touch: bool): real {
    if levels == [] then 0.0
    else (if Executable(side, limit, levels[0].price, touch) then levels[0].quantity else 0.0)
         + ExecutableDepth(levels[1..], side, limit, touch)
  }

  lemma {:induction false} DepthNonnegative(levels: seq<Level>, side: Side, limit: real, touch: bool)
    ensures ExecutableDepth(levels, side, limit, touch) >= 0.0
  {
    if levels != [] {
      DepthNonnegative(levels[1..], side, limit, touch);
    }
  }

  /** Behind a price that cannot execute, nothing can. */
  lemma {:induction false} NothingBehind(levels: seq<Level>, side: Side, limit: real, touch: bool)
    requires BestFirst(levels, side)
    requires levels != [] ==> !Executable(side, limit, levels[0].price, touch)
    ensures ExecutableDepth(levels, side, limit, touch) == 0.0
  {
    if |levels| > 1 {
      assert Rank(side, levels[0].price) < Rank(side, levels[1].price);
      NothingBehind(levels[1..], side, limit, touch);
    }
  }

  /** The walk fills exactly the smaller of the order and the executable depth. */
  lemma {:induction false} WalkFillsAll(levels: seq<Level>, x: real, side: Side, limit: real, touch: bool)
    requires BestFirst(levels, side) && x >= 0.0
    ensures Filled(Walk(levels, x, side, limit, touch)) == Min(x, ExecutableDepth(levels, side, limit, touch))
  {
    DepthNonnegative(levels, side, limit, touch);
    if levels == [] || x == 0.0 {
    } else if !Executable(side, limit, levels[0].price, touch) {
      NothingBehind(levels, side, limit, touch);
    } else {
      var take := Min(x, levels[0].quantity);
      DepthNonnegative(levels[1..], side, limit, touch);
      WalkFillsAll(levels[1..], x - take, side, limit, touch);
      if take != 0.0 {
        var rest := Walk(levels[1..], x - take, side, limit, touch);
        assert ([Component(levels[0].price, take, Taker)] + rest)[1..] == rest;
      }
    }
  }

  // ----- the walk is optimal

  function Allocated(alloc: seq<real>): real {
    if alloc == [] then 0.0 else alloc[0] + Allocated(alloc[1..])
  }

  /** What an allocation over the levels costs: quantity times price, summed. */
  function CostOfAllocation(levels: seq<Level>, alloc: seq<real>): real
    requires |alloc| == |levels|
  {
    if levels == [] then 0.0 else Value(alloc[0], levels[0].price) + CostOfAllocation(levels[1..], alloc[1..])
  }

  /** Any way of taking quantity out of the displayed depth. */
  predicate Fits(levels: seq<Level>, alloc: seq<real>) {
    |alloc| == |levels| && forall i :: 0 <= i < |alloc| ==> 0.0 <= alloc[i] <= levels[i].quantity
  }

  function RankedCost(side: Side, x: real): real {
    if side.Buy? then x else -x
  }

  predicate AtLeast(levels: seq<Level>, side: Side, k: real) {
    forall i :: 0 <= i < |levels| ==> k <= Rank(side, levels[i].price)
  }

  lemma ValueOfRank(side: Side, x: real, price: real)
    ensures RankedCost(side, Value(x, price)) == Value(x, Rank(side, price))
  {
    ValueSubtractPrice(x, 0.0, price);
    ValueSubtractPrice(x, 0.0, 0.0);
  }

  /** An allocation over levels no better than `k` costs at least `k` a unit. */
  lemma {:induction false} CostAtLeast(levels: seq<Level>, alloc: seq<real>, side: Side, k: real)
    requires Fits(levels, alloc) && AtLeast(levels, side, k)
    ensures Value(Allocated(alloc), k) <= RankedCost(side, CostOfAllocation(levels, alloc))
  {
    hide Value;
    ValueZero(k);
    if levels != [] {
      CostAtLeast(levels[1..], alloc[1..], side, k);
      ValueOfRank(side, alloc[0], levels[0].price);
      ValueMonotone(alloc[0], k, Rank(side, levels[0].price));
      ValueAdd(alloc[0], Allocated(alloc[1..]), k);
    }
  }

  /**
   The exchange argument. Any allocation of at least the walk's quantity costs more than the walk by at least `k`
   a unit, where `k` ranks no worse than any level.
   */
  lemma {:induction false} WalkIsCheapest(levels: seq<Level>, x: real, side: Side, limit: real, touch: bool, alloc: seq<real>, k: real)
    requires BestFirst(levels, side) && x >= 0.0
    requires Fits(levels, alloc) && AtLeast(levels, side, k)
    requires Filled(Walk(levels, x, side, limit, touch)) <= Allocated(alloc)
    ensures var w := Walk(levels, x, side, limit, touch);
            Value(Allocated(alloc) - Filled(w), k) <= RankedCost(side, CostOfAllocation(levels, alloc)) - RankedCost(side, Notional(w))
  {
    hide Value;
    CostAtLeast(levels, alloc, side, k);
    if levels != [] && x != 0.0 && Executable(side, limit, levels[0].price, touch) {
      var take := Min(x, levels[0].quantity);
      var rest, rank := levels[1..], Rank(side, levels[0].price);
      var w, w' := Walk(levels, x, side, limit, touch), Walk(rest, x - take, side, limit, touch);
      WalkHead(levels, x, side, limit, touch);
      ValueOfRank(side, alloc[0], levels[0].price);
      ValueOfRank(side, take, levels[0].price);
      if x <= levels[0].quantity {
        assert w' == [];
        CostAtLeast(rest, alloc[1..], side, rank);
      } else {
        WalkIsCheapest(rest, x - take, side, limit, touch, alloc[1..], rank);
      }
      StepCost(alloc[0], take, Allocated(alloc[1..]), Filled(w'), rank, k);
    }
  }

  /** The first level's share of the walk, and the rest of it. */
  lemma {:induction false} WalkHead(levels: seq<Level>, x: real, side: Side, limit: real, touch: bool)
    requires levels != [] && x > 0.0 && Executable(side, limit, levels[0].price, touch)
    ensures var take := Min(x, levels[0].quantity);
            var w, w' := Walk(levels, x, side, limit, touch), Walk(levels[1..], x - take, side, limit, touch);
            && Filled(w) == take + Filled(w')
            && Notional(w) == Value(take, levels[0].price) + Notional(w')
  {
    var take := Min(x, levels[0].quantity);
    var w' := Walk(levels[1..], x - take, side, limit, touch);
    if take == 0.0 {
      ValueZero(levels[0].price);
    } else {
      assert ([Component(levels[0].price, take, Taker)] + w')[1..] == w';
    }
  }

  lemma StepCost(a: real, take: real, restA: real, restW: real, rank: real, k: real)
    requires k <= rank && take + restW <= a + restA
    ensures Value(a + restA - (take + restW), k) <= Value(a, rank) - Value(take, rank) + Value(restA - restW, rank)
  {
    hide Value;
    ValueMonotone(a + restA - (take + restW), k, rank);
    ValueAdd(a - take, restA - restW, rank);
    ValueAdd(a - take, take, rank);
  }

  /**
   Of all ways to take the filled quantity out of the displayed depth, executable or not, none is cheaper for a buyer
   and none earns a seller more.
   */
  lemma {:induction false} GreedyIsOptimal(s: Snapshot, side: Side, limit: real, quantity: real, touch: bool, alloc: seq<real>)
    requires quantity > 0.0
    requires Fits(Opposite(s, side), alloc)
    requires Allocated(alloc) == Filled(Walk(Opposite(s, side), quantity, side, limit, touch))
    ensures var levels := Opposite(s, side);
            var notional := Notional(Walk(levels, quantity, side, limit, touch));
            if side.Buy? then notional <= CostOfAllocation(levels, alloc) else CostOfAllocation(levels, alloc) <= notional
  {
    hide Value;
    var levels := Opposite(s, side);
    OppositeIsBestFirst(s, side);
    var k := if levels == [] then 0.0 else Rank(side, levels[0].price);
    WalkIsCheapest(levels, quantity, side, limit, touch, alloc, k);
    ValueZero(k);
  }

  // ----- the average price

  /** Every component is positive, executes, and ranks from `k` on. */
  ghost predicate Executed(components: seq<Component>, side: Side, limit: real, touch: bool, k: real) {
    forall i :: 0 <= i < |components| ==>
      && components[i].quantity > 0.0
      && Executable(side, limit, components[i].price, touch)
      && k <= Rank(side, components[i].price)
  }

  lemma {:induction false} WalkExecutes(levels: seq<Level>, x: real, side: Side, limit: real, touch: bool, k: real)
    requires BestFirst(levels, side) && x >= 0.0 && AtLeast(levels, side, k)
    ensures var w := Walk(levels, x, side, limit, touch);
            && Executed(w, side, limit, touch, k)
            && (w != [] ==> Executed(w, side, limit, touch, Rank(side, w[0].price)))
  {
    if levels != [] && x != 0.0 && Executable(side, limit, levels[0].price, touch) {
      var take := Min(x, levels[0].quantity);
      var rank := Rank(side, levels[0].price);
      WalkExecutes(levels[1..], x - take, side, limit, touch, if take == 0.0 then k else rank);
    }
  }

  lemma {:induction false} NotionalBounds(components: seq<Component>, side: Side, limit: real, touch: bool, k: real)
    requires Executed(components, side, limit, touch, k)
    ensures Filled(components) >= 0.0 && (components != [] ==> Filled(components) > 0.0)
    ensures Value(Filled(components), k) <= RankedCost(side, Notional(components)) <= Value(Filled(components), Rank(side, limit))
  {
    hide Value;
    ValueZero(k);
    ValueZero(Rank(side, limit));
    if components != [] {
      var q, p := components[0].quantity, components[0].price;
      NotionalBounds(components[1..], side, limit, touch, k);
      ValueOfRank(side, q, p);
      ValueMonotone(q, k, Rank(side, p));
      ValueMonotone(q, Rank(side, p), Rank(side, limit));
      ValueAdd(q, Filled(components[1..]), k);
      ValueAdd(q, Filled(components[1..]), Rank(side, limit));
    }
  }

  /** The average fill price lies between the best price taken and the limit. */
  lemma {:induction false} AverageWithinLimit(s: Snapshot, side: Side, limit: real, quantity: real, touch: bool)
    requires quantity > 0.0
    ensures var w := Walk(Opposite(s, side), quantity, side, limit, touch);
            && (AveragePrice(w).Some? <==> w != [])
            && (w != [] ==> var a := AveragePrice(w).value;
                            if side.Buy? then w[0].price <= a <= limit else limit <= a <= w[0].price)
  {
    hide Value;
    var levels := Opposite(s, side);
    OppositeIsBestFirst(s, side);
    var w := Walk(levels, quantity, side, limit, touch);
    WalkExecutes(levels, quantity, side, limit, touch, if levels == [] then 0.0 else Rank(side, levels[0].price));
    if w != [] {
      var f, n := Filled(w), Notional(w);
      NotionalBounds(w, side, limit, touch, Rank(side, w[0].price));
      ValueOfRank(side, f, w[0].price);
      ValueOfRank(side, f, limit);
      if side.Buy? {
        QuotientBounds(n, f, w[0].price, limit);
      } else {
        QuotientBounds(n, f, limit, w[0].price);
      }
    }
  }

  // ----- the two models side by side

  lemma {:induction false} NothingTakenBehind(levels: seq<Level>, x: real, side: Side, limit: real, touch: bool)
    requires levels != [] ==> !Executable(side, limit, levels[0].price, touch)
    ensures Walk(levels, x, side, limit, touch) == []
  {
  }

  /** Trade-through components are a prefix of touch components; at most one more is taken, exactly at the limit. */
  lemma {:induction false} ThroughIsPrefixOfTouch(levels: seq<Level>, x: real, side: Side, limit: real)
    requires BestFirst(levels, side) && x >= 0.0
    ensures var through, touch := Walk(levels, x, side, limit, false), Walk(levels, x, side, limit, true);
            && through <= touch
            && |touch| <= |through| + 1
            && (|touch| == |through| + 1 ==> touch[|through|].price == limit)
  {
    if levels == [] || x == 0.0 {
    } else {
      var take := Min(x, levels[0].quantity);
      if Executable(side, limit, levels[0].price, false) {
        ThroughIsPrefixOfTouch(levels[1..], x - take, side, limit);
      } else if Executable(side, limit, levels[0].price, true) {
        assert |levels| > 1 ==> Rank(side, levels[0].price) < Rank(side, levels[1].price);
        NothingTakenBehind(levels[1..], x - take, side, limit, true);
      }
    }
  }

  // ----- what the walk takes

  lemma {:induction false} NothingReached(levels: seq<Level>, side: Side, limit: real, touch: bool)
    requires BestFirst(levels, side)
    requires levels != [] ==> !Executable(side, limit, levels[0].price, touch)
    ensures forall l :: l in levels ==> !Reached(l, side, limit, touch)
  {
    forall l | l in levels
      ensures !Reached(l, side, limit, touch)
    {
      var i :| 0 <= i < |levels| && levels[i] == l;
      assert i > 0 ==> Rank(side, levels[0].price) < Rank(side, levels[i].price);
    }
  }

  lemma {:induction false} WalkTakes(levels: seq<Level>, x: real, side: Side, limit: real, touch: bool)
    requires BestFirst(levels, side) && x >= 0.0
    ensures Takes(Walk(levels, x, side, limit, touch), levels, side, limit, x, touch)
  {
    var w := Walk(levels, x, side, limit, touch);
    if levels == [] || x == 0.0 || !Executable(side, limit, levels[0].price, touch) {
      if x != 0.0 {
        NothingReached(levels, side, limit, touch);
      }
    } else {
      var rest, take := levels[1..], Min(x, levels[0].quantity);
      WalkTakes(rest, x - take, side, limit, touch);
      var w' := Walk(rest, x - take, side, limit, touch);
      if take == 0.0 {
        SkipTakes(w, levels, side, limit, x, touch);
      } else {
        OneMoreTaken(w', levels, side, limit, x, touch, take);
      }
    }
  }

  /** An empty level in front changes nothing. */
  lemma {:induction false} SkipTakes(w: seq<Component>, levels: seq<Level>, side: Side, limit: real, x: real, touch: bool)
    requires levels != [] && levels[0].quantity == 0.0 && Takes(w, levels[1..], side, limit, x, touch)
    ensures Takes(w, levels, side, limit, x, touch)
  {
    assert forall l :: l in levels[1..] ==> l in levels;
    assert forall l :: l in levels ==> l == levels[0] || l in levels[1..];
  }

  lemma {:induction false} FirstIsBest(w: seq<Component>, first: Component, levels: seq<Level>, side: Side, limit: real, touch: bool)
    requires BestFirst(levels, side) && levels != [] && first.price == levels[0].price
    requires BetterFirst(w, side) && AllDisplayed(w, levels[1..], side, limit, touch)
    ensures BetterFirst([first] + w, side)
  {
    hide Reached;
    var rest := levels[1..];
    forall j | 0 <= j < |w|
      ensures if side.Buy? then first.price < w[j].price else first.price > w[j].price
    {
      assert w[j] in w;
      var l :| l in rest && Reached(l, side, limit, touch) && TakenFrom(w[j], l);
      var k :| 0 <= k < |rest| && rest[k] == l;
      assert Rank(side, levels[0].price) < Rank(side, levels[k + 1].price);
    }
  }

  lemma {:induction false} OneMoreDisplayed(w: seq<Component>, first: Component, levels: seq<Level>, side: Side, limit: real, touch: bool)
    requires levels != [] && Reached(levels[0], side, limit, touch) && TakenFrom(first, levels[0])
    requires AllDisplayed(w, levels[1..], side, limit, touch)
    ensures AllDisplayed([first] + w, levels, side, limit, touch)
  {
    hide Reached, TakenFrom;
    forall c | c in [first] + w
      ensures exists l :: l in levels && Reached(l, side, limit, touch) && TakenFrom(c, l)
    {
      if c == first {
        assert levels[0] in levels;
      } else {
        var l :| l in levels[1..] && Reached(l, side, limit, touch) && TakenFrom(c, l);
        assert l in levels;
      }
    }
  }

  lemma {:induction false} OneMoreTaken(w: seq<Component>, levels: seq<Level>, side: Side, limit: real, x: real, touch: bool, take: real)
    requires BestFirst(levels, side) && levels != [] && Executable(side, limit, levels[0].price, touch)
    requires 0.0 < take == Min(x, levels[0].quantity)
    requires Takes(w, levels[1..], side, limit, x - take, touch)
    ensures Takes([Component(levels[0].price, take, Taker)] + w, levels, side, limit, x, touch)
  {
    var first := Component(levels[0].price, take, Taker);
    var all := [first] + w;
    assert Reached(levels[0], side, limit, touch) && TakenFrom(first, levels[0]);
    hide Reached, TakenFrom, BetterFirst, AllDisplayed, BestFirst, Executable;
    FirstIsBest(w, first, levels, side, limit, touch);
    OneMoreDisplayed(w, first, levels, side, limit, touch);
    assert all[1..] == w;
    assert Filled(all) == take + Filled(w);
    SomethingFilled(w);
    if Filled(all) < x {
      forall l | l in levels && Reached(l, side, limit, touch)
        ensures Component(l.price, l.quantity, Taker) in all
      {
        if l != levels[0] {
          assert l in levels[1..];
        }
      }
    }
  }

  lemma {:induction false} EstimateDescribes(s: Snapshot, side: Side, limit: real, quantity: real, touch: bool)
    requires quantity > 0.0
    ensures var levels := if side.Buy? then s.asks else s.bids;
            var w := Walk(levels, quantity, side, limit, touch);
            Describes(EstimateOf(side, limit, quantity, touch, w, quantity - Filled(w)), levels, side, limit, quantity, touch)
  {
    var levels := Opposite(s, side);
    var w := Walk(levels, quantity, side, limit, touch);
    OppositeIsBestFirst(s, side);
    WalkFillsAll(levels, quantity, side, limit, touch);
    WalkTakes(levels, quantity, side, limit, touch);
    DepthNonnegative(levels, side, limit, touch);
    SomethingFilled(w);
    AverageAverages(w);
    hide Walk, Takes, ExecutableDepth, Filled, Notional, BestFirst, Averages, AveragePrice;
  }

  lemma {:induction false} AverageAverages(w: seq<Component>)
    requires Filled(w) >= 0.0
    ensures Averages(AveragePrice(w), Filled(w), Notional(w))
  {
    hide Filled, Notional;
    if Filled(w) != 0.0 {
      QuotientTimes(Notional(w), Filled(w));
    }
  }

  lemma QuotientTimes(n: real, f: real)
    requires f != 0.0
    ensures n / f * f == n
  {
  }

  lemma {:induction false} SomethingFilled(w: seq<Component>)
    requires forall i :: 0 <= i < |w| ==> w[i].quantity > 0.0
    ensures Filled(w) >= 0.0 && (w != [] <==> Filled(w) > 0.0)
  {
    if w != [] {
      SomethingFilled(w[1..]);
    }
  }
}
