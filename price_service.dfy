/**
 * The read side of the price store: the latest price of one item, the
 * latest prices of several items as an id-to-price map, and an item's
 * price history. Every store failure turns into null (or an empty list).
 */
module PriceService {
  import opened Wrappers

  /** A row of the `latest_item_prices` view (its dollar `price` column is not read). */
  datatype LatestRow = LatestRow(itemId: int, priceCents: int, recordedAt: string, source: string)

  /** `PriceData`: the price in cents, when it was recorded, and where it came from. */
  datatype PriceData = PriceData(price: int, recordedAt: string, source: string)

  /** What the store answers to a query returning rows: an error, or rows (possibly null). */
  datatype RowsOutcome<T> = StoreError | Rows(rows: Option<seq<T>>)

  /** `{price: row.price_cents, recorded_at, source}`. */
  function Project(row: LatestRow): (d: PriceData)
    ensures d.price == row.priceCents && d.recordedAt == row.recordedAt && d.source == row.source
  {
    PriceData(row.priceCents, row.recordedAt, row.source)
  }

  /** `getItemPrice`: `.single()` answers an error unless exactly one row matched. */
  function GetItemPrice(answer: RowsOutcome<LatestRow>): (r: Option<PriceData>)
    ensures r.Some? <==> answer.Rows? && answer.rows.Some? && |answer.rows.value| == 1
    ensures r.Some? ==> r.value.price == answer.rows.value[0].priceCents
                        && r.value.recordedAt == answer.rows.value[0].recordedAt
                        && r.value.source == answer.rows.value[0].source
  {
    if answer.Rows? && answer.rows.Some? && |answer.rows.value| == 1 then Some(Project(answer.rows.value[0])) else None
  }

  // ---------------------------------------------------------------------------
  // getItemPrices

  /** Every requested id mapped to null. */
  function AllNull(ids: seq<int>): map<int, Option<PriceData>>
    decreases |ids|
  {
    if |ids| == 0 then map[] else AllNull(ids[..|ids| - 1])[ids[|ids| - 1] := None]
  }

  /** The rows written over `m` one after the other. */
  function FillRows(m: map<int, Option<PriceData>>, rows: seq<LatestRow>): map<int, Option<PriceData>>
    decreases |rows|
  {
    if |rows| == 0 then m else FillRows(m, rows[..|rows| - 1])[rows[|rows| - 1].itemId := Some(Project(rows[|rows| - 1]))]
  }

  /** The map `getItemPrices` returns for a store answer. */
  function PriceMap(ids: seq<int>, answer: RowsOutcome<LatestRow>): map<int, Option<PriceData>> {
    if answer.StoreError? || answer.rows.None? then AllNull(ids) else FillRows(AllNull(ids), answer.rows.value)
  }

  /** The two `forEach` loops of `getItemPrices`, writing into `priceMap`. */
  method GetItemPrices(ids: seq<int>, answer: RowsOutcome<LatestRow>) returns (priceMap: map<int, Option<PriceData>>)
    ensures priceMap == PriceMap(ids, answer)
    ensures forall id :: id in ids ==> id in priceMap
  {
    priceMap := map[];
    var i := 0;
    while i < |ids|
      invariant 0 <= i <= |ids|
      invariant priceMap == AllNull(ids[..i])
    {
      assert ids[..i + 1][..i] == ids[..i];
      priceMap := priceMap[ids[i] := None];
      i := i + 1;
    }
    assert ids[..|ids|] == ids;
    if answer.Rows? && answer.rows.Some? {
      var rows := answer.rows.value;
      ghost var start := priceMap;
      var j := 0;
      while j < |rows|
        invariant 0 <= j <= |rows|
        invariant priceMap == FillRows(start, rows[..j])
      {
        assert rows[..j + 1][..j] == rows[..j];
        priceMap := priceMap[rows[j].itemId := Some(Project(rows[j]))];
        j := j + 1;
      }
      assert rows[..|rows|] == rows;
    }
    KeysCoverRequested(ids, answer);
  }

  lemma {:induction false} AllNullShape(ids: seq<int>)
    ensures forall id :: id in AllNull(ids) <==> id in ids
    ensures forall id :: id in AllNull(ids) ==> AllNull(ids)[id] == None
    decreases |ids|
  {
    if |ids| > 0 {
      AllNullShape(ids[..|ids| - 1]);
      assert forall id :: id in ids <==> id in ids[..|ids| - 1] || id == ids[|ids| - 1];
    }
  }

  /** Some row of the list is about item `id`. */
  predicate Names(rows: seq<LatestRow>, id: int) {
    exists r :: r in rows && r.itemId == id
  }

  /** The filled map keeps the old keys and gains exactly the rows' ids. */
  lemma {:induction false} FillRowsKeys(m: map<int, Option<PriceData>>, rows: seq<LatestRow>)
    ensures forall id :: id in FillRows(m, rows) <==> id in m || Names(rows, id)
    decreases |rows|
  {
    if |rows| > 0 {
      var init := rows[..|rows| - 1];
      FillRowsKeys(m, init);
      forall id
        ensures Names(rows, id) <==> Names(init, id) || rows[|rows| - 1].itemId == id
      {
        if exists r :: r in rows && r.itemId == id {
          var r :| r in rows && r.itemId == id;
          if r != rows[|rows| - 1] {
            var q :| 0 <= q < |rows| && rows[q] == r;
            assert init[q] == r;
          }
        }
        if exists r :: r in init && r.itemId == id {
          var r :| r in init && r.itemId == id;
          assert r in rows;
        }
      }
    }
  }

  /** An id no row names keeps its old value. */
  lemma {:induction false} FillRowsUntouched(m: map<int, Option<PriceData>>, rows: seq<LatestRow>, id: int)
    requires id in m
    requires forall r :: r in rows ==> r.itemId != id
    ensures id in FillRows(m, rows) && FillRows(m, rows)[id] == m[id]
    decreases |rows|
  {
    if |rows| > 0 {
      FillRowsUntouched(m, rows[..|rows| - 1], id);
    }
  }

  /** An id some row names maps to the projection of the LAST such row. */
  lemma {:induction false} FillRowsLastWins(m: map<int, Option<PriceData>>, rows: seq<LatestRow>, q: nat)
    requires q < |rows|
    requires forall j :: q < j < |rows| ==> rows[j].itemId != rows[q].itemId
    ensures rows[q].itemId in FillRows(m, rows) && FillRows(m, rows)[rows[q].itemId] == Some(Project(rows[q]))
    decreases |rows|
  {
    if q < |rows| - 1 {
      FillRowsLastWins(m, rows[..|rows| - 1], q);
    }
  }

  /** Every requested id is a key of the result, whatever the store answered. */
  lemma KeysCoverRequested(ids: seq<int>, answer: RowsOutcome<LatestRow>)
    ensures forall id :: id in ids ==> id in PriceMap(ids, answer)
  {
    AllNullShape(ids);
    if answer.Rows? && answer.rows.Some? {
      FillRowsKeys(AllNull(ids), answer.rows.value);
    }
  }

  /** On a store error (or null data) the keys are exactly the requested ids, all null. */
  lemma ErrorGivesAllNull(ids: seq<int>, answer: RowsOutcome<LatestRow>)
    requires answer.StoreError? || answer.rows.None?
    ensures forall id :: id in PriceMap(ids, answer) <==> id in ids
    ensures forall id :: id in PriceMap(ids, answer) ==> PriceMap(ids, answer)[id] == None
  {
    AllNullShape(ids);
  }

  /** A requested id that no returned row names maps to null. */
  lemma MissingRowGivesNull(ids: seq<int>, answer: RowsOutcome<LatestRow>, id: int)
    requires id in ids
    requires answer.Rows? && answer.rows.Some? ==> forall r :: r in answer.rows.value ==> r.itemId != id
    ensures id in PriceMap(ids, answer) && PriceMap(ids, answer)[id] == None
  {
    AllNullShape(ids);
    if answer.Rows? && answer.rows.Some? {
      FillRowsUntouched(AllNull(ids), answer.rows.value, id);
    }
  }

  /** A returned row's id maps to the last returned row with that id, requested or not. */
  lemma ReturnedRowWins(ids: seq<int>, rows: seq<LatestRow>, q: nat)
    requires q < |rows|
    requires forall j :: q < j < |rows| ==> rows[j].itemId != rows[q].itemId
    ensures rows[q].itemId in PriceMap(ids, Rows(Some(rows)))
    ensures PriceMap(ids, Rows(Some(rows)))[rows[q].itemId] == Some(Project(rows[q]))
  {
    FillRowsLastWins(AllNull(ids), rows, q);
  }

  // ---------------------------------------------------------------------------
  // getItemPriceHistory

  /** `data?.map(project) || []`, with an error also giving `[]`. */
  function HistoryOf(answer: RowsOutcome<LatestRow>): (r: seq<PriceData>)
    ensures answer.StoreError? || answer.rows.None? ==> r == []
    ensures answer.Rows? && answer.rows.Some? ==> |r| == |answer.rows.value|
    ensures answer.Rows? && answer.rows.Some? ==>
              forall i :: 0 <= i < |r| ==> r[i] == Project(answer.rows.value[i])
  {
    if answer.StoreError? || answer.rows.None? then [] else ProjectAll(answer.rows.value)
  }

  /** The row projection across a list, in order. */
  function ProjectAll(rows: seq<LatestRow>): (r: seq<PriceData>)
    ensures |r| == |rows|
    ensures forall i :: 0 <= i < |rows| ==> r[i] == Project(rows[i])
    decreases |rows|
  {
    if |rows| == 0 then [] else ProjectAll(rows[..|rows| - 1]) + [Project(rows[|rows| - 1])]
  }
}
