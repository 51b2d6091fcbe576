/** Whole runs of fills through one position. */
module PositionRuns {
  import opened Common
  import opened Portfolio
  import opened Positions
  import opened Reals

  /** The fills applied one after another, stopping at the first error. */
  function ApplyAll(position: Option<Position>, fills: seq<Fill>, currency: string, positionId: Option<PositionId>)
    : Result<Option<Position>, Error>
  {
    if fills == [] then Ok(position) else
    var before :- ApplyAll(position, fills[..|fills| - 1], currency, positionId);
    var p :- ApplyFillToPosition(before, fills[|fills| - 1], currency, positionId);
    Ok(Some(p.position))
  }

  /** Buys minus sells. */
  function Net(fills: seq<Fill>): real {
    if fills == [] then 0.0
    else Net(fills[..|fills| - 1]) + SignedQuantity(fills[|fills| - 1])
  }

  /** Total notional traded on one side. */
  function Notional(fills: seq<Fill>, side: Side): real {
    if fills == [] then 0.0
    else
      var last := fills[|fills| - 1];
      Notional(fills[..|fills| - 1], side) + (if last.side == side then Value(last.quantity, last.price) else 0.0)
  }

  /**
   The fills that built the open position: the one that last opened or flipped it and every later one that added
   to it. Read off the signed quantities alone; no average price is involved.
   */
  function Builders(fills: seq<Fill>): seq<Fill> {
    if fills == [] then []
    else
      var earlier := fills[..|fills| - 1];
      var last := fills[|fills| - 1];
      var before, after := Net(earlier), Net(fills);
      if after == 0.0 then []
      else if before == 0.0 || Sign(before) != Sign(after) then [last]
      else if Sign(SignedQuantity(last)) == Sign(before) then Builders(earlier) + [last]
      else Builders(earlier)
  }

  predicate Flat(position: Option<Position>) {
    Quantity(position) == 0.0 && Sound(position)
  }

  /** The average is a price that the builders' prices enclose. */
  ghost predicate Encloses(builders: seq<Fill>, price: real) {
    && (exists i :: 0 <= i < |builders| && builders[i].price <= price)
    && (exists i :: 0 <= i < |builders| && price <= builders[i].price)
  }

  lemma EnclosesSnoc(builders: seq<Fill>, fill: Fill, average: real, price: real)
    requires Encloses(builders, average)
    requires average <= price <= fill.price || fill.price <= price <= average
    ensures Encloses(builders + [fill], price)
  {
    var i :| 0 <= i < |builders| && builders[i].price <= average;
    var j :| 0 <= j < |builders| && average <= builders[j].price;
    var all := builders + [fill];
    assert all[i] == builders[i] && all[j] == builders[j] && all[|builders|] == fill;
  }

  /** An added fill moves the average towards its own price and not past it. */
  lemma AddMovesTowards(q: real, average: real, fill: Fill)
    requires q != 0.0 && Sign(q) == Sign(SignedQuantity(fill))
    ensures var a := ApplyWeightedAverageFill(q, Some(average), fill).value.averageEntryPrice.value;
            average <= a <= fill.price || fill.price <= a <= average
  {
    var f := SignedQuantity(fill);
    MeanBetween(Abs(q), average, Abs(f), fill.price, Abs(q + f),
                if average <= fill.price then average else fill.price,
                if average <= fill.price then fill.price else average);
  }

  /** What every run of fills establishes. */
  ghost predicate RunFacts(position: Option<Position>, fills: seq<Fill>, after: Option<Position>) {
    && Sound(after)
    && Quantity(after) == Quantity(position) + Net(fills)
    && Version(after) == Version(position) + |fills|
    && Realized(after) - Cost(after)
       == Realized(position) - Cost(position) + Notional(fills, Sell) - Notional(fills, Buy)
  }

  lemma {:induction false} RunKeepsFacts(position: Option<Position>, fills: seq<Fill>, currency: string, positionId: Option<PositionId>)
    requires Sound(position)
    requires ApplyAll(position, fills, currency, positionId).Ok?
    ensures RunFacts(position, fills, ApplyAll(position, fills, currency, positionId).value)
  {
    hide ApplyFillToPosition, Cost;
    if fills != [] {
      var earlier, last := fills[..|fills| - 1], fills[|fills| - 1];
      RunKeepsFacts(position, earlier, currency, positionId);
      var before := ApplyAll(position, earlier, currency, positionId).value;
      FillSteps(before, last, currency, positionId);
    }
  }

  /**
   Path independence. Whatever adds, partial closes and flips lie between, fills that start and end flat
   realize total sell notional minus total buy notional.
   */
  lemma RoundTripRealizesNotional(position: Option<Position>, fills: seq<Fill>, currency: string, positionId: Option<PositionId>)
    requires Flat(position)
    requires ApplyAll(position, fills, currency, positionId).Ok?
    requires Net(fills) == 0.0
    ensures var after := ApplyAll(position, fills, currency, positionId).value;
            && Flat(after)
            && Realized(after) - Realized(position) == Notional(fills, Sell) - Notional(fills, Buy)
  {
    RunKeepsFacts(position, fills, currency, positionId);
  }

  /** The open episode after a run that started flat. */
  ghost predicate EpisodeFacts(fills: seq<Fill>, after: Option<Position>) {
    var open := Builders(fills);
    && (Quantity(after) != 0.0 <==> open != [])
    && (after.Some? ==> (after.value.averageEntryPrice.Some? <==> after.value.quantity != 0.0))
    && (after.Some? && fills != [] ==> (after.value.openedAt.Some? <==> after.value.quantity != 0.0))
    && (after.Some? && open != [] ==>
          && fills != []
          && Encloses(open, after.value.averageEntryPrice.value)
          && after.value.openedAt.value == open[0].exchangeOccurredAt)
  }

  /** How average and opening time go on: kept by a reduction, moved by an addition, started anew by an opening or a flip. */
  ghost predicate GoesOn(before: Option<Position>, fill: Fill, after: Position) {
    var q := Quantity(before);
    && after.quantity == q + SignedQuantity(fill)
    && (after.quantity == 0.0 ==> after.averageEntryPrice.None? && after.openedAt.None?)
    && (after.quantity != 0.0 ==> after.averageEntryPrice.Some? && after.openedAt.Some?)
    && (after.quantity != 0.0 && (q == 0.0 || Sign(q) != Sign(after.quantity)) ==>
          after.averageEntryPrice.value == fill.price && after.openedAt.value == fill.exchangeOccurredAt)
    && (after.quantity != 0.0 && q != 0.0 && Sign(q) == Sign(after.quantity) ==>
          && before.value.averageEntryPrice.Some?
          && before.value.lastUpdatedAt <= fill.exchangeOccurredAt
          && after.openedAt == (if before.value.openedAt.Some? then before.value.openedAt else Some(fill.exchangeOccurredAt))
          && var a, b := before.value.averageEntryPrice.value, after.averageEntryPrice.value;
             if Sign(SignedQuantity(fill)) == Sign(q) then a <= b <= fill.price || fill.price <= b <= a else b == a)
  }

  lemma {:induction false} FillGoesOn(before: Option<Position>, fill: Fill, currency: string, positionId: Option<PositionId>)
    requires ApplyFillToPosition(before, fill, currency, positionId).Ok?
    ensures GoesOn(before, fill, ApplyFillToPosition(before, fill, currency, positionId).value.position)
  {
    hide Value, Mean;
    var q := Quantity(before);
    if q != 0.0 && before.value.averageEntryPrice.Some? && Sign(q) == Sign(SignedQuantity(fill)) {
      AddMovesTowards(q, before.value.averageEntryPrice.value, fill);
    }
  }

  lemma {:induction false} EpisodeStep(before: Option<Position>, fills: seq<Fill>, currency: string, positionId: Option<PositionId>)
    requires fills != []
    requires var earlier := fills[..|fills| - 1];
             && Sound(before)
             && Quantity(before) == Net(earlier)
             && EpisodeFacts(earlier, before)
    requires ApplyFillToPosition(before, fills[|fills| - 1], currency, positionId).Ok?
    ensures EpisodeFacts(fills, Some(ApplyFillToPosition(before, fills[|fills| - 1], currency, positionId).value.position))
  {
    var earlier, last := fills[..|fills| - 1], fills[|fills| - 1];
    FillGoesOn(before, last, currency, positionId);
    var after := ApplyFillToPosition(before, last, currency, positionId).value.position;
    hide ApplyFillToPosition, Encloses;
    assert Net(fills) == after.quantity;
    var q := Quantity(before);
    if after.quantity != 0.0 && q != 0.0 && Sign(q) == Sign(after.quantity) && Sign(SignedQuantity(last)) == Sign(q) {
      EnclosesSnoc(Builders(earlier), last, before.value.averageEntryPrice.value, after.averageEntryPrice.value);
    } else if Builders(fills) == [last] {
      EnclosesOne(last);
    }
  }

  lemma EnclosesOne(fill: Fill)
    ensures Encloses([fill], fill.price)
  {
    assert [fill][0].price == fill.price;
  }

  /**
   After any run from any flat position, be it none, closed by fills or closed by a settlement: an average is present
   exactly when the position is open, it lies between the smallest and the largest price of the fills that built the
   position, and the position has been open since the first of them.
   */
  lemma {:induction false} RunKeepsEpisode(start: Option<Position>, fills: seq<Fill>, currency: string, positionId: Option<PositionId>)
    requires Flat(start)
    requires ApplyAll(start, fills, currency, positionId).Ok?
    ensures EpisodeFacts(fills, ApplyAll(start, fills, currency, positionId).value)
  {
    if fills != [] {
      var earlier := fills[..|fills| - 1];
      RunKeepsEpisode(start, earlier, currency, positionId);
      RunKeepsFacts(start, earlier, currency, positionId);
      EpisodeStep(ApplyAll(start, earlier, currency, positionId).value, fills, currency, positionId);
    }
  }
}
