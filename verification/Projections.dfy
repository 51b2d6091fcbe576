/** Applying fills once, one at a time and in batches. */
module Projections {
  import opened Common
  import opened Sorting
  import opened Portfolio
  import opened Positions
  import opened Journals

  datatype FillApplication = FillApplication(
    position: Option<Position>, projection: Option<Projection>, journal: Option<Journal>,
    appliedFillIds: set<string>, applied: bool, duplicateFill: bool)

  function ApplyFillOnce(position: Option<Position>, fill: Fill, appliedFillIds: set<string>, currency: string,
                         sourceEventId: string, createdAt: Time, positionId: Option<PositionId>)
    : Result<FillApplication, Error>
  {
    if fill.fillId in appliedFillIds then
      Ok(FillApplication(position, None, None, appliedFillIds, false, true))
    else
      var p :- ApplyFillToPosition(position, fill, currency, positionId);
      var j :- FillJournalEntry(fill, p, sourceEventId, createdAt);
      Ok(FillApplication(Some(p.position), Some(p), Some(j), appliedFillIds + {fill.fillId}, true, false))
  }

  // ----- batches

  /** What every fill of one batch shares. `sources` maps fill ids to source event ids. */
  datatype Context = Context(currency: string, sources: map<string, string>, createdAt: Time, positionId: Option<PositionId>)

  datatype Progress = Progress(position: Option<Position>, appliedFillIds: set<string>,
                               results: seq<FillApplication>, journals: seq<Journal>)

  datatype BatchResult = BatchResult(position: Option<Position>, results: seq<FillApplication>, journals: seq<Journal>,
                                     appliedFillIds: set<string>, appliedCount: nat, duplicateCount: nat)

  function FillOrderKey(fill: Fill): Key {
    [Int(fill.exchangeOccurredAt), Int(fill.receivedAt), Str(fill.fillId)]
  }

  predicate Agree(x: Fill, y: Fill) {
    x.fillId == y.fillId ==> x == y
  }

  predicate OnePayloadPerId(fills: seq<Fill>) {
    forall x, y {:trigger Agree(x, y)} :: x in fills && y in fills ==> Agree(x, y)
  }

  predicate SourcesKnown(fills: seq<Fill>, sources: map<string, string>) {
    forall x :: x in fills ==> x.fillId in sources
  }

  function CheckBatch(fills: seq<Fill>, sources: map<string, string>): Result<(), Error> {
    if !OnePayloadPerId(fills) then Err(ConflictingPayload)
    else if !SourcesKnown(fills, sources) then Err(MissingSourceEvent)
    else Ok(())
  }

  function Step(s: Progress, fill: Fill, c: Context): Result<Progress, Error>
    requires fill.fillId in c.sources
  {
    var r :- ApplyFillOnce(s.position, fill, s.appliedFillIds, c.currency, c.sources[fill.fillId], c.createdAt, c.positionId);
    Ok(Progress(r.position, r.appliedFillIds, s.results + [r],
                if r.journal.Some? then s.journals + [r.journal.value] else s.journals))
  }

  function Steps(s: Progress, fills: seq<Fill>, c: Context): Result<Progress, Error>
    requires SourcesKnown(fills, c.sources)
    decreases |fills|
  {
    if fills == [] then Ok(s)
    else
      var t :- Step(s, fills[0], c);
      Steps(t, fills[1..], c)
  }

  function Count(results: seq<FillApplication>, applied: bool): nat {
    if results == [] then 0
    else Count(results[..|results| - 1], applied) + (if results[|results| - 1].applied == applied then 1 else 0)
  }

  function Summary(s: Progress): BatchResult {
    BatchResult(s.position, s.results, s.journals, s.appliedFillIds, Count(s.results, true), Count(s.results, false))
  }

  lemma {:induction false} SortedSourcesKnown(fills: seq<Fill>, sources: map<string, string>)
    requires SourcesKnown(fills, sources)
    ensures SourcesKnown(Sorted(FillOrderKey, fills), sources)
  {
    SortedSorts(FillOrderKey, fills);
  }

  function FillsOnce(position: Option<Position>, fills: seq<Fill>, appliedFillIds: set<string>, c: Context)
    : Result<BatchResult, Error>
  {
    var _ :- CheckBatch(fills, c.sources);
    SortedSourcesKnown(fills, c.sources);
    var s :- Steps(Progress(position, appliedFillIds, [], []), Sorted(FillOrderKey, fills), c);
    Ok(Summary(s))
  }

  /** `_validate_fill_batch`: one pass that fills a dictionary, then the lookup of the source events. */
  method ValidateFillBatch(fills: seq<Fill>, sources: map<string, string>) returns (r: Result<(), Error>)
    ensures r == CheckBatch(fills, sources)
  {
    var fillById: map<string, Fill> := map[];
    for i := 0 to |fills|
      invariant forall j :: 0 <= j < i ==> fills[j].fillId in fillById && fillById[fills[j].fillId] == fills[j]
      invariant forall k :: k in fillById ==> fillById[k] in fills && fillById[k].fillId == k
    {
      var fill := fills[i];
      if fill.fillId in fillById && fillById[fill.fillId] != fill {
        assert !Agree(fillById[fill.fillId], fill);
        return Err(ConflictingPayload);
      }
      fillById := fillById[fill.fillId := fill];
    }
    if exists k :: k in fillById && k !in sources {
      return Err(MissingSourceEvent);
    }
    return Ok(());
  }

  /** `apply_fills_once`: the loop over the sorted batch. */
  method ApplyFillsOnce(position: Option<Position>, fills: seq<Fill>, appliedFillIds: set<string>, c: Context)
    returns (r: Result<BatchResult, Error>)
    ensures r == FillsOnce(position, fills, appliedFillIds, c)
  {
    hide ApplyFillOnce, OnePayloadPerId, Sorted;
    var checked := ValidateFillBatch(fills, c.sources);
    if checked.Err? {
      return Err(checked.error);
    }
    SortedSourcesKnown(fills, c.sources);
    var sorted := Sorted(FillOrderKey, fills);
    var currentPosition, currentFillIds := position, appliedFillIds;
    var results: seq<FillApplication>, journals: seq<Journal> := [], [];
    for i := 0 to |sorted|
      invariant Steps(Progress(position, appliedFillIds, [], []), sorted, c)
             == Steps(Progress(currentPosition, currentFillIds, results, journals), sorted[i..], c)
    {
      var fill := sorted[i];
      assert sorted[i..][0] == fill && sorted[i..][1..] == sorted[i + 1..];
      var result := ApplyFillOnce(currentPosition, fill, currentFillIds, c.currency, c.sources[fill.fillId], c.createdAt, c.positionId);
      if result.Err? {
        return Err(result.error);
      }
      currentPosition := result.value.position;
      currentFillIds := result.value.appliedFillIds;
      results := results + [result.value];
      if result.value.journal.Some? {
        journals := journals + [result.value.journal.value];
      }
    }
    r := Ok(Summary(Progress(currentPosition, currentFillIds, results, journals)));
  }

  // ----- order, repetition and splitting

  lemma {:induction false} MembersOfPermutation(s: seq<Fill>, t: seq<Fill>)
    requires multiset(s) == multiset(t)
    ensures forall x :: x in s <==> x in t
  {
    assert forall x :: x in s <==> x in multiset(s);
    assert forall x :: x in t <==> x in multiset(t);
  }

  lemma {:induction false} CheckForgetsOrder(s: seq<Fill>, t: seq<Fill>, sources: map<string, string>)
    requires multiset(s) == multiset(t)
    ensures CheckBatch(s, sources) == CheckBatch(t, sources)
  {
    MembersOfPermutation(s, t);
  }

  lemma {:induction false} PayloadsAreKeyed(fills: seq<Fill>)
    requires OnePayloadPerId(fills)
    ensures KeyDetermines(FillOrderKey, fills)
  {
    forall x, y | x in fills && y in fills
      ensures Distinguishes(FillOrderKey, x, y)
    {
      if FillOrderKey(x) == FillOrderKey(y) {
        assert FillOrderKey(x)[2] == FillOrderKey(y)[2];
        assert Agree(x, y);
      }
    }
  }

  /** A batch means the same in every order of arrival: same position, journals, ids, counts or error. */
  lemma {:induction false} BatchForgetsOrder(position: Option<Position>, s: seq<Fill>, t: seq<Fill>, appliedFillIds: set<string>, c: Context)
    requires multiset(s) == multiset(t)
    ensures FillsOnce(position, s, appliedFillIds, c) == FillsOnce(position, t, appliedFillIds, c)
  {
    hide Steps, Summary;
    CheckForgetsOrder(s, t, c.sources);
    if CheckBatch(s, c.sources).Ok? {
      PayloadsAreKeyed(s);
      SortedOfPermutation(FillOrderKey, s, t);
    }
  }

  function Ids(fills: seq<Fill>): set<string> {
    if fills == [] then {} else {fills[0].fillId} + Ids(fills[1..])
  }

  lemma {:induction false} IdsHold(fills: seq<Fill>)
    ensures forall x :: x in fills ==> x.fillId in Ids(fills)
    ensures forall id :: id in Ids(fills) ==> exists x :: x in fills && x.fillId == id
  {
    if fills != [] {
      IdsHold(fills[1..]);
      assert fills[0] in fills;
      assert forall x :: x in fills[1..] ==> x in fills;
    }
  }

  /** Some step of a batch records an id; the journals of a batch are one per newly recorded id. */
  ghost predicate Recorded(s: Progress, ids: set<string>, t: Progress) {
    var added := t.appliedFillIds - s.appliedFillIds;
    && t.appliedFillIds == s.appliedFillIds + ids
    && s.journals <= t.journals
    && |t.journals| - |s.journals| == |added|
    && (forall i {:trigger t.journals[i]} :: |s.journals| <= i < |t.journals| ==>
          t.journals[i].id.FillJournal? && t.journals[i].id.fillId in added)
    && (forall i, j :: |s.journals| <= i < j < |t.journals| ==> t.journals[i].id != t.journals[j].id)
  }

  lemma {:induction false} StepRecords(s: Progress, fill: Fill, c: Context)
    requires fill.fillId in c.sources && Step(s, fill, c).Ok?
    ensures Recorded(s, {fill.fillId}, Step(s, fill, c).value)
  {
    hide ApplyFillToPosition, FillLines, CheckProjection;
    var t := Step(s, fill, c).value;
    assert t.appliedFillIds - s.appliedFillIds == if fill.fillId in s.appliedFillIds then {} else {fill.fillId};
  }

  lemma {:induction false} RecordedCompose(s: Progress, a: set<string>, t: Progress, b: set<string>, u: Progress)
    requires Recorded(s, a, t) && Recorded(t, b, u)
    ensures Recorded(s, a + b, u)
  {
    var first, second := t.appliedFillIds - s.appliedFillIds, u.appliedFillIds - t.appliedFillIds;
    assert u.appliedFillIds - s.appliedFillIds == first + second && first !! second;
    assert forall i :: |s.journals| <= i < |t.journals| ==> u.journals[i] == t.journals[i];
  }

  /** A batch records all its ids and leaves one journal for each id that was new, no two for the same id. */
  lemma {:induction false} StepsRecord(s: Progress, fills: seq<Fill>, c: Context)
    requires SourcesKnown(fills, c.sources)
    requires Steps(s, fills, c).Ok?
    ensures Recorded(s, Ids(fills), Steps(s, fills, c).value)
    decreases |fills|
  {
    hide Step;
    if fills != [] {
      var t := Step(s, fills[0], c).value;
      StepRecords(s, fills[0], c);
      StepsRecord(t, fills[1..], c);
      RecordedCompose(s, {fills[0].fillId}, t, Ids(fills[1..]), Steps(s, fills, c).value);
    }
  }

  /** Fills whose ids are all recorded change nothing. */
  lemma {:induction false} RecordedFillsAreNoOps(s: Progress, fills: seq<Fill>, c: Context)
    requires SourcesKnown(fills, c.sources)
    requires forall x :: x in fills ==> x.fillId in s.appliedFillIds
    ensures var r := Steps(s, fills, c);
            && r.Ok?
            && r.value.position == s.position && r.value.appliedFillIds == s.appliedFillIds && r.value.journals == s.journals
            && Count(r.value.results, true) == Count(s.results, true)
            && Count(r.value.results, false) == Count(s.results, false) + |fills|
    decreases |fills|
  {
    if fills != [] {
      var t := Step(s, fills[0], c).value;
      assert t.results[..|t.results| - 1] == s.results;
      RecordedFillsAreNoOps(t, fills[1..], c);
    }
  }

  /** Reapplying an applied batch is a no-op: every fill is reported as a duplicate. */
  lemma {:induction false} ReapplyingIsNoOp(position: Option<Position>, fills: seq<Fill>, appliedFillIds: set<string>, c: Context)
    requires FillsOnce(position, fills, appliedFillIds, c).Ok?
    ensures var first := FillsOnce(position, fills, appliedFillIds, c).value;
            var again := FillsOnce(first.position, fills, first.appliedFillIds, c);
            && again.Ok?
            && again.value.position == first.position
            && again.value.appliedFillIds == first.appliedFillIds
            && again.value.journals == []
            && again.value.appliedCount == 0 && again.value.duplicateCount == |fills|
  {
    hide Step;
    var first := FillsOnce(position, fills, appliedFillIds, c).value;
    SortedSorts(FillOrderKey, fills);
    var sorted := Sorted(FillOrderKey, fills);
    StepsRecord(Progress(position, appliedFillIds, [], []), sorted, c);
    IdsHold(sorted);
    RecordedFillsAreNoOps(Progress(first.position, first.appliedFillIds, [], []), sorted, c);
  }

  lemma {:induction false} StepsConcat(s: Progress, u: seq<Fill>, v: seq<Fill>, c: Context)
    requires SourcesKnown(u, c.sources) && SourcesKnown(v, c.sources)
    ensures SourcesKnown(u + v, c.sources)
    ensures Steps(s, u + v, c) == var t := Steps(s, u, c); if t.Ok? then Steps(t.value, v, c) else t
    decreases |u|
  {
    hide ApplyFillOnce;
    if u == [] {
      assert u + v == v;
    } else {
      assert (u + v)[1..] == u[1..] + v && (u + v)[0] == u[0];
      var t := Step(s, u[0], c);
      if t.Ok? {
        StepsConcat(t.value, u[1..], v, c);
      }
    }
  }

  function Bare(s: Progress): Progress {
    s.(results := [], journals := [])
  }

  /** Earlier results and journals ride along. */
  function Prefixed(s: Progress, r: Result<Progress, Error>): Result<Progress, Error> {
    if r.Err? then r
    else Ok(r.value.(results := s.results + r.value.results, journals := s.journals + r.value.journals))
  }

  lemma {:induction false} StepCarries(s: Progress, fill: Fill, c: Context)
    requires fill.fillId in c.sources
    ensures Step(s, fill, c) == Prefixed(s, Step(Bare(s), fill, c))
  {
    hide ApplyFillOnce;
    var r := ApplyFillOnce(s.position, fill, s.appliedFillIds, c.currency, c.sources[fill.fillId], c.createdAt, c.positionId);
    if r.Ok? {
      assert s.results + ([] + [r.value]) == s.results + [r.value];
      assert s.journals + [] == s.journals;
      if r.value.journal.Some? {
        assert s.journals + ([] + [r.value.journal.value]) == s.journals + [r.value.journal.value];
      }
    }
  }

  lemma {:induction false} PrefixedTwice(s: Progress, t: Progress, r: Result<Progress, Error>)
    ensures Prefixed(s, Prefixed(t, r)) == Prefixed(t.(results := s.results + t.results, journals := s.journals + t.journals), r)
  {
    if r.Ok? {
      assert s.results + (t.results + r.value.results) == (s.results + t.results) + r.value.results;
      assert s.journals + (t.journals + r.value.journals) == (s.journals + t.journals) + r.value.journals;
    }
  }

  /** The steps depend on the position and the ids only. */
  lemma {:induction false} StepsCarry(s: Progress, fills: seq<Fill>, c: Context)
    requires SourcesKnown(fills, c.sources)
    ensures Steps(s, fills, c) == Prefixed(s, Steps(Bare(s), fills, c))
    decreases |fills|
  {
    hide Step;
    if fills == [] {
      assert s.results + [] == s.results && s.journals + [] == s.journals;
    } else {
      StepCarries(s, fills[0], c);
      var b := Step(Bare(s), fills[0], c);
      if b.Ok? {
        var t := Prefixed(s, b).value;
        StepsCarry(t, fills[1..], c);
        StepsCarry(b.value, fills[1..], c);
        assert Bare(t) == Bare(b.value);
        PrefixedTwice(s, b.value, Steps(Bare(t), fills[1..], c));
      }
    }
  }

  /** A part of a checked batch, taken in sort order, is a checked batch that is already sorted. */
  lemma {:induction false} SliceOfSorted(fills: seq<Fill>, lo: nat, hi: nat, sources: map<string, string>)
    requires CheckBatch(fills, sources).Ok?
    requires lo <= hi <= |Sorted(FillOrderKey, fills)|
    ensures var part := Sorted(FillOrderKey, fills)[lo..hi];
            CheckBatch(part, sources).Ok? && Sorted(FillOrderKey, part) == part
  {
    SortedSorts(FillOrderKey, fills);
    var part := Sorted(FillOrderKey, fills)[lo..hi];
    SortedOfAscending(FillOrderKey, part);
    forall x | x in part
      ensures x in fills
    {
      assert x in Sorted(FillOrderKey, fills);
    }
  }

  lemma {:induction false} SortedBatchRuns(position: Option<Position>, part: seq<Fill>, appliedFillIds: set<string>, c: Context)
    requires CheckBatch(part, c.sources).Ok? && Sorted(FillOrderKey, part) == part
    ensures var s := Steps(Progress(position, appliedFillIds, [], []), part, c);
            FillsOnce(position, part, appliedFillIds, c) == if s.Ok? then Ok(Summary(s.value)) else Err(s.error)
  {
  }

  /** Splitting a batch at any point of the sort order and applying the parts in turn changes nothing. */
  lemma {:induction false} SplittingChangesNothing(position: Option<Position>, fills: seq<Fill>, k: nat, appliedFillIds: set<string>, c: Context)
    requires CheckBatch(fills, c.sources).Ok?
    requires k <= |Sorted(FillOrderKey, fills)|
    ensures var sorted := Sorted(FillOrderKey, fills);
            var whole := FillsOnce(position, fills, appliedFillIds, c);
            var first := FillsOnce(position, sorted[..k], appliedFillIds, c);
            if first.Err? then whole == first
            else
              var second := FillsOnce(first.value.position, sorted[k..], first.value.appliedFillIds, c);
              if second.Err? then whole == second
              else
                && whole.Ok?
                && whole.value.position == second.value.position
                && whole.value.appliedFillIds == second.value.appliedFillIds
                && whole.value.results == first.value.results + second.value.results
                && whole.value.journals == first.value.journals + second.value.journals
  {
    hide Steps, OnePayloadPerId, FillOrderKey;
    SortedSourcesKnown(fills, c.sources);
    var sorted := Sorted(FillOrderKey, fills);
    var u, v := sorted[..k], sorted[k..];
    SliceOfSorted(fills, 0, k, c.sources);
    SliceOfSorted(fills, k, |sorted|, c.sources);
    assert sorted == u + v && u == sorted[0..k] && v == sorted[k..|sorted|];
    var start := Progress(position, appliedFillIds, [], []);
    StepsConcat(start, u, v, c);
    var mid := Steps(start, u, c);
    SortedBatchRuns(position, u, appliedFillIds, c);
    if mid.Ok? {
      StepsCarry(mid.value, v, c);
      SortedBatchRuns(mid.value.position, v, mid.value.appliedFillIds, c);
    }
  }
}
