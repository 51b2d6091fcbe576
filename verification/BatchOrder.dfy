/** In which order a batch is applied, and exactly when it is accepted. */
module BatchOrder {
  import opened Common
  import opened Sequences
  import opened Sorting
  import opened Keys
  import opened Portfolio
  import opened Positions
  import opened Journals
  import opened Projections

  // ----- the order

  /** Exchange time first, then time of receipt, then id. */
  predicate NotLater(x: Fill, y: Fill) {
    || x.exchangeOccurredAt < y.exchangeOccurredAt
    || (x.exchangeOccurredAt == y.exchangeOccurredAt &&
        (|| x.receivedAt < y.receivedAt
         || (x.receivedAt == y.receivedAt && StrLe(x.fillId, y.fillId))))
  }

  predicate InOrder(fills: seq<Fill>) {
    forall i, j :: 0 <= i < j < |fills| ==> NotLater(fills[i], fills[j])
  }

  lemma {:induction false} KeyOrderIs(x: Fill, y: Fill)
    ensures KeyLe(FillOrderKey(x), FillOrderKey(y)) <==> NotLater(x, y)
  {
    ThreeParts(FillOrderKey(x), FillOrderKey(y));
    StrTotal(x.fillId, x.fillId);
    hide KeyLe, StrLe;
  }

  /** The results of a batch are those of applying its fills one by one, from the earliest to the latest. */
  lemma {:induction false} BatchRunsInOrder(position: Option<Position>, fills: seq<Fill>, appliedFillIds: set<string>, c: Context)
    requires CheckBatch(fills, c.sources).Ok?
    ensures exists s: seq<Fill> ::
              && multiset(s) == multiset(fills) && InOrder(s) && SourcesKnown(s, c.sources)
              && var run := Steps(Progress(position, appliedFillIds, [], []), s, c);
                 FillsOnce(position, fills, appliedFillIds, c) == if run.Ok? then Ok(Summary(run.value)) else Err(run.error)
  {
    hide Steps, KeyLe, NotLater;
    var s := Sorted(FillOrderKey, fills);
    SortedSorts(FillOrderKey, fills);
    SortedSourcesKnown(fills, c.sources);
    forall i, j | 0 <= i < j < |s|
      ensures NotLater(s[i], s[j])
    {
      KeyOrderIs(s[i], s[j]);
    }
  }

  // ----- acceptance

  /** A fill's money is in the currency and nonnegative, and its journal is not dated before it. */
  predicate FillFits(fill: Fill, c: Context) {
    && (fill.fee.Some? ==> fill.fee.value.currency == c.currency && fill.fee.value.amount >= 0.0)
    && (fill.rebate.Some? ==> fill.rebate.value.currency == c.currency && fill.rebate.value.amount >= 0.0)
    && fill.exchangeOccurredAt <= c.createdAt
  }

  /** The position is one that fills of this currency, and the batch's position id, can be applied to. */
  predicate PositionFits(p: Position, c: Context) {
    && (c.positionId.Some? ==> p.positionId == c.positionId.value)
    && (p.quantity == 0.0 <==> p.averageEntryPrice.None?)
    && c.currency == p.realizedPnl.currency == p.unrealizedPnl.currency == p.feesPaid.currency == p.rebatesReceived.currency
  }

  predicate NewIn(fill: Fill, ids: set<string>) {
    fill.fillId !in ids
  }

  /** A new fill fits the batch's currency and the position from which the batch starts. */
  ghost predicate Allowed(position: Option<Position>, x: Fill, c: Context) {
    && |c.currency| == 3 && (forall i :: 0 <= i < 3 ==> 'A' <= c.currency[i] <= 'Z')
    && FillFits(x, c)
    && (position.Some? ==>
          && PositionFits(position.value, c)
          && position.value.identity == x.identity
          && position.value.lastUpdatedAt <= x.exchangeOccurredAt)
  }

  /** What a batch has to satisfy, whatever the order it comes in. Recorded fills are not looked at. */
  ghost predicate BatchFits(position: Option<Position>, fills: seq<Fill>, ids: set<string>, c: Context) {
    && (forall x :: x in fills && NewIn(x, ids) ==> Allowed(position, x, c))
    && (position.None? ==> OneIdentity(fills, ids))
  }

  ghost predicate OneIdentity(fills: seq<Fill>, ids: set<string>) {
    forall x, y :: x in fills && y in fills && NewIn(x, ids) && NewIn(y, ids) ==> x.identity == y.identity
  }

  /** One fill of a batch: skipped if recorded, and otherwise applied when it fits. */
  lemma {:induction false} StepFits(s: Progress, fill: Fill, c: Context)
    requires fill.fillId in c.sources
    ensures var r := Step(s, fill, c);
            && (r.Ok? <==> BatchFits(s.position, [fill], s.appliedFillIds, c))
            && (r.Ok? ==>
                  && |r.value.results| == |s.results| + 1 && r.value.results[..|s.results|] == s.results
                  && var (x, known) := (r.value.results[|s.results|], fill.fillId in s.appliedFillIds);
                     && x.applied == !known && x.duplicateFill == known
                     && x.position == r.value.position && x.appliedFillIds == r.value.appliedFillIds
                     && (x.projection.Some? <==> !known) && (x.journal.Some? <==> !known)
                     && (known ==> r.value.journals == s.journals)
                     && (!known ==>
                           && r.value.position == Some(x.projection.value.position)
                           && r.value.journals == s.journals + [x.journal.value]))
            && (r.Ok? && fill.fillId in s.appliedFillIds ==>
                  r.value.position == s.position && r.value.appliedFillIds == s.appliedFillIds)
            && (r.Ok? && fill.fillId !in s.appliedFillIds ==>
                  && r.value.position.Some?
                  && PositionFits(r.value.position.value, c)
                  && r.value.position.value.identity == fill.identity
                  && r.value.position.value.lastUpdatedAt == fill.exchangeOccurredAt
                  && r.value.appliedFillIds == s.appliedFillIds + {fill.fillId}
                  && |r.value.journals| == |s.journals| + 1
                  && var j := r.value.journals[|s.journals|];
                     j.id == FillJournal(fill.fillId) && j.sourceEventId == c.sources[fill.fillId] && j.createdAt == c.createdAt)
  {
    hide ApplyFillToPosition, FillJournalEntry, Books, OneCurrency;
    if fill.fillId !in s.appliedFillIds {
      assert fill in [fill];
      FillProjects(s.position, fill, c.currency, c.positionId);
      if ApplyFillToPosition(s.position, fill, c.currency, c.positionId).Ok? {
        FillJournals(s.position, fill, c.currency, c.positionId, c.sources[fill.fillId], c.createdAt);
      }
    }
  }

  predicate TimesAscend(fills: seq<Fill>) {
    forall i, j :: 0 <= i < j < |fills| ==> fills[i].exchangeOccurredAt <= fills[j].exchangeOccurredAt
  }

  /** Later fills are those of the rest, new after the first exactly when they are new and not the first. */
  lemma {:induction false} LaterFills(fills: seq<Fill>, ids: set<string>, x: Fill)
    requires fills != [] && TimesAscend(fills) && OnePayloadPerId(fills) && x in fills[1..]
    ensures x in fills && fills[0].exchangeOccurredAt <= x.exchangeOccurredAt
    ensures NewIn(x, ids + {fills[0].fillId}) <==> NewIn(x, ids) && x != fills[0]
  {
    var i :| 0 <= i < |fills[1..]| && fills[1..][i] == x;
    assert fills[i + 1] == x && fills[0] in fills;
    assert Agree(x, fills[0]);
  }

  /** After the first fill another one is allowed exactly when it was before, and is of the same identity. */
  lemma {:induction false} AllowedAfter(position: Option<Position>, after: Position, first: Fill, x: Fill, c: Context)
    requires Allowed(position, first, c) && first.exchangeOccurredAt <= x.exchangeOccurredAt
    requires PositionFits(after, c) && after.identity == first.identity && after.lastUpdatedAt == first.exchangeOccurredAt
    ensures Allowed(Some(after), x, c) <==> Allowed(position, x, c) && x.identity == first.identity
  {
    hide FillFits, PositionFits;
  }

  /** When the first fill goes through, the rest fits after it exactly when the whole fitted before it. */
  lemma {:induction false} RestFits(position: Option<Position>, after: Position, fills: seq<Fill>, ids: set<string>, c: Context)
    requires fills != [] && TimesAscend(fills) && OnePayloadPerId(fills) && NewIn(fills[0], ids)
    requires BatchFits(position, [fills[0]], ids, c)
    requires PositionFits(after, c) && after.identity == fills[0].identity && after.lastUpdatedAt == fills[0].exchangeOccurredAt
    ensures BatchFits(position, fills, ids, c) <==> BatchFits(Some(after), fills[1..], ids + {fills[0].fillId}, c)
  {
    var first, rest := fills[0], fills[1..];
    assert first in [first] && first in fills;
    assert Allowed(position, first, c);
    hide Allowed, PositionFits, TimesAscend, OnePayloadPerId, NewIn;
    forall x | x in rest
      ensures x in fills
      ensures NewIn(x, ids + {first.fillId}) <==> NewIn(x, ids) && x != first
      ensures Allowed(Some(after), x, c) <==> Allowed(position, x, c) && x.identity == first.identity
    {
      LaterFills(fills, ids, x);
      AllowedAfter(position, after, first, x, c);
    }
    assert forall x :: x in fills ==> x == first || x in rest;
    if position.Some? {
      SameIdentities(position, after, fills, ids, c);
    }
  }

  lemma {:induction false} SameIdentities(position: Option<Position>, after: Position, fills: seq<Fill>, ids: set<string>, c: Context)
    requires fills != [] && position.Some? && Allowed(position, fills[0], c)
    ensures forall x :: Allowed(position, x, c) ==> x.identity == fills[0].identity
  {
  }

  lemma {:induction false} StepsFit(s: Progress, fills: seq<Fill>, c: Context)
    requires SourcesKnown(fills, c.sources) && TimesAscend(fills) && OnePayloadPerId(fills)
    ensures Steps(s, fills, c).Ok? <==> BatchFits(s.position, fills, s.appliedFillIds, c)
    decreases |fills|
  {
    hide Step, Allowed, PositionFits;
    if fills != [] {
      var first, rest := fills[0], fills[1..];
      StepFits(s, first, c);
      assert first in fills && forall x :: x in rest ==> x in fills;
      FirstFits(s.position, fills, s.appliedFillIds, c);
      if BatchFits(s.position, [first], s.appliedFillIds, c) {
        var t := Step(s, first, c).value;
        StepsFit(t, rest, c);
        if first.fillId in s.appliedFillIds {
          SkippedFits(s.position, fills, s.appliedFillIds, c);
        } else {
          RestFits(s.position, t.position.value, fills, s.appliedFillIds, c);
        }
      }
    }
  }

  lemma {:induction false} FirstFits(position: Option<Position>, fills: seq<Fill>, ids: set<string>, c: Context)
    requires fills != []
    ensures BatchFits(position, fills, ids, c) ==> BatchFits(position, [fills[0]], ids, c)
  {
    hide Allowed;
    assert fills[0] in fills;
  }

  lemma {:induction false} SkippedFits(position: Option<Position>, fills: seq<Fill>, ids: set<string>, c: Context)
    requires fills != [] && !NewIn(fills[0], ids)
    ensures BatchFits(position, fills, ids, c) <==> BatchFits(position, fills[1..], ids, c)
  {
    hide Allowed;
    assert forall x :: x in fills ==> x == fills[0] || x in fills[1..];
    assert forall x :: x in fills[1..] ==> x in fills;
  }

  lemma {:induction false} BatchChecksIff(fills: seq<Fill>, sources: map<string, string>)
    ensures CheckBatch(fills, sources).Ok? <==>
              && (forall x, y :: x in fills && y in fills && x.fillId == y.fillId ==> x == y)
              && (forall x :: x in fills ==> x.fillId in sources)
  {
    if OnePayloadPerId(fills) {
      forall x, y | x in fills && y in fills && x.fillId == y.fillId
        ensures x == y
      {
        assert Agree(x, y);
      }
    }
  }

  lemma {:induction false} SortedTimesAscend(fills: seq<Fill>)
    ensures TimesAscend(Sorted(FillOrderKey, fills))
  {
    hide KeyLe, Sorted;
    var s := Sorted(FillOrderKey, fills);
    SortedSorts(FillOrderKey, fills);
    forall i, j | 0 <= i < j < |s|
      ensures s[i].exchangeOccurredAt <= s[j].exchangeOccurredAt
    {
      KeyOrderIs(s[i], s[j]);
    }
  }

  lemma {:induction false} SameMembersFit(position: Option<Position>, s: seq<Fill>, t: seq<Fill>, ids: set<string>, c: Context)
    requires forall x :: x in s <==> x in t
    ensures BatchFits(position, s, ids, c) <==> BatchFits(position, t, ids, c)
    ensures OnePayloadPerId(s) <==> OnePayloadPerId(t)
  {
    hide Allowed, Agree;
  }

  /**
   A batch is accepted if and only if its ids have one payload and a source each, and every new fill fits: the order of
   arrival never makes a fill stale.
   */
  lemma {:induction false} BatchAcceptedIff(position: Option<Position>, fills: seq<Fill>, ids: set<string>, c: Context)
    ensures FillsOnce(position, fills, ids, c).Ok? <==>
              && (forall x, y :: x in fills && y in fills && x.fillId == y.fillId ==> x == y)
              && (forall x :: x in fills ==> x.fillId in c.sources)
              && BatchFits(position, fills, ids, c)
  {
    hide Steps, BatchFits, Sorted, TimesAscend;
    BatchChecksIff(fills, c.sources);
    if CheckBatch(fills, c.sources).Ok? {
      var s := Sorted(FillOrderKey, fills);
      assert OnePayloadPerId(fills);
      hide OnePayloadPerId;
      SortedSourcesKnown(fills, c.sources);
      SortedSorts(FillOrderKey, fills);
      SameMembersFit(position, s, fills, ids, c);
      SortedTimesAscend(fills);
      StepsFit(Progress(position, ids, [], []), s, c);
    }
  }
}
