/** Order-book schemas: levels, snapshots and deltas. */
module MarketData {
  import opened Common

  datatype RawLevel = Level(price: real, quantity: real, orderCount: Option<nat>)

  type Level = l: RawLevel | l.price >= 0.0 && l.quantity >= 0.0
    witness RawLevel.Level(0.0, 0.0, None)

  predicate Ascending(levels: seq<Level>) {
    forall i, j :: 0 <= i < j < |levels| ==> levels[i].price < levels[j].price
  }

  predicate Descending(levels: seq<Level>) {
    forall i, j :: 0 <= i < j < |levels| ==> levels[i].price > levels[j].price
  }

  /** What a snapshot and a delta must share. */
  datatype Lineage = Lineage(marketId: string, contractId: string, exchange: string)

  datatype RawSnapshot = Snapshot(
    lineage: Lineage, sequence: Option<nat>, exchangeOccurredAt: Option<Time>, receivedAt: Time,
    bids: seq<Level>, asks: seq<Level>, isValid: bool, reason: string)

  /** Bid prices strictly descend and ask prices strictly ascend. */
  type Snapshot = s: RawSnapshot | Descending(s.bids) && Ascending(s.asks)
    witness RawSnapshot.Snapshot(Lineage("", "", ""), None, None, 0, [], [], true, "initial")

  datatype Action = Upsert | Delete

  datatype RawChange = Change(side: Side, price: real, quantity: real, action: Action)

  type Change = c: RawChange | c.price >= 0.0 && c.quantity >= 0.0
    witness RawChange.Change(Buy, 0.0, 0.0, Delete)

  datatype Delta = Delta(
    lineage: Lineage, sequence: Option<nat>, previousSequence: Option<nat>,
    exchangeOccurredAt: Option<Time>, receivedAt: Time, changes: seq<Change>)
}
