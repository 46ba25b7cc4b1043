/**
 * The per-item logic both price-ingestion routes share: which items are
 * priced, the listing query built for an item, the "first listing or null"
 * price lookup, the insert into `item_prices`, and the run's counters.
 *
 * The listings request is an oracle `fetch(k, query)` (k is the item's
 * position in the loaded list) and the insert an oracle `insert(k, record)`.
 */
module PriceJob {
  import opened Wrappers
  import opened Text
  import opened Rows
  import opened CsFloat

  /** The row inserted into `item_prices`; `recorded_at` is left to the store. */
  datatype PriceRecord = PriceRecord(itemId: int, priceCents: int, price: real, source: string)

  /** What the store answers to one insert. */
  datatype InsertOutcome = Inserted | InsertError(message: string)

  datatype SkipReason = Ineligible | NoPrice

  /** How one item ends up: skipped, priced and stored, or failed with a message. */
  datatype ItemOutcome =
    | Skipped(reason: SkipReason)
    | Succeeded(record: PriceRecord)
    | Failed(record: PriceRecord, message: string)

  /** The `results` object: three counters, the error list, and the inserts attempted. */
  datatype Tally = Tally(success: nat, failed: nat, skipped: nat, errors: seq<string>, inserts: seq<PriceRecord>)

  /** What the store answers to `select('*')` on `cs_items`: an error, or rows (possibly null). */
  datatype ItemsLoad = LoadFailed(message: string) | Loaded(rows: Option<seq<CsItem>>)

  /** The JSON response of a route, with its HTTP status given by `Status`. */
  datatype Response =
    | Unauthorized
    | NothingToUpdate
    | Completed(message: string, total: nat, success: nat, failed: nat, skipped: nat, errors: Option<seq<string>>)
    | ServerError(details: string)

  function Status(r: Response): (code: int)
    ensures code == 200 <==> r.NothingToUpdate? || r.Completed?
  {
    match r
    case Unauthorized => 401
    case ServerError(_) => 500
    case _ => 200
  }

  predicate TruthyInt(o: Option<int>) {
    o.Some? && o.value != 0
  }

  /** Items lacking a definition index (0 counts as missing) or both wear bounds are not priced. */
  predicate Eligible(item: CsItem) {
    !(!TruthyInt(item.defIndex) || (item.minFloat.None? && item.maxFloat.None?))
  }

  /** `x || undefined` for a nullable integer column. */
  function IntOrUndefined(o: Option<int>): JsValue {
    if o.Some? && o.value != 0 then Number(o.value as real) else Undefined
  }

  /** `x || undefined` for a nullable float column. */
  function RealOrUndefined(o: Option<real>): JsValue {
    if o.Some? && o.value != 0.0 then Number(o.value) else Undefined
  }

  /** A nullable column passed through unchanged. */
  function IntOrNull(o: Option<int>): JsValue {
    if o.Some? then Number(o.value as real) else Null
  }

  /** The parameter object the routes pass to `getLowestPrice` for an item, as its entries. */
  function ItemEntries(item: CsItem): seq<Entry> {
    [ Entry("def_index", IntOrNull(item.defIndex)),
      Entry("paint_index", IntOrUndefined(item.paintIndex)),
      Entry("min_float", RealOrUndefined(item.minFloat)),
      Entry("max_float", RealOrUndefined(item.maxFloat)),
      Entry("category", Number(item.category as real)) ]
  }

  /** The two parameters `fetchListingsFromCSFloat` always puts first. */
  const DefaultParams: seq<QueryParam> := [QueryParam("sort_by", Str("lowest_price")), QueryParam("type", Str("buy_now"))]

  /** The query of the listings request made for an item (`limit: 5` comes from `getLowestPrice`). */
  function RouteQuery(item: CsItem): seq<QueryParam> {
    DefaultParams + DefinedParams(WithLimit(ItemEntries(item), 5.0))
  }

  /** Builds the query the way `fetchListingsFromCSFloat` fills `searchParams`. */
  method BuildRouteQuery(item: CsItem) returns (q: seq<QueryParam>)
    ensures q == RouteQuery(item)
  {
    var entries := WithLimit(ItemEntries(item), 5.0);
    q := AppendDefined(DefaultParams, entries);
  }

  /**
   * `getLowestPrice`: the price of the first listing of the page, or null
   * when the page is empty or anything raised (reading `.data` of a bare
   * array raises too).
   */
  function LowestPrice(h: HttpOutcome): (r: Option<int>)
    ensures r.Some? <==> ListingsResponse(h).Ok? && ListingsResponse(h).value.ListingPage? && |ListingsResponse(h).value.data| > 0
    ensures r.Some? ==> r.value == ListingsResponse(h).value.data[0].price
  {
    match ListingsResponse(h)
    case Err(_) => None
    case Ok(body) =>
      match body
      case ListingPage(data) => if |data| == 0 then None else Some(data[0].price)
      case _ => None
  }

  /** The row inserted for a price of `p` cents. */
  function RecordFor(item: CsItem, p: int): PriceRecord {
    PriceRecord(item.id, p, p as real / 100.0, "csfloat")
  }

  /** The message pushed to `errors` when the insert for an item fails. */
  function FailureMessage(item: CsItem, storeMessage: string): string {
    "Item " + IntToString(item.id) + " (" + item.defName + "): "
    + "Failed to insert price for item " + IntToString(item.id) + ": " + storeMessage
  }

  /** What becomes of the item at position `k`, given the oracles' answers. */
  function Resolve(k: nat, item: CsItem, fetch: (nat, seq<QueryParam>) -> HttpOutcome,
                   insert: (nat, PriceRecord) -> InsertOutcome): ItemOutcome
  {
    if !Eligible(item) then Skipped(Ineligible)
    else
      match LowestPrice(fetch(k, RouteQuery(item)))
      case None => Skipped(NoPrice)
      case Some(p) =>
        var rec := RecordFor(item, p);
        match insert(k, rec)
        case Inserted => Succeeded(rec)
        case InsertError(m) => Failed(rec, FailureMessage(item, m))
  }

  /** The outcome of every loaded item, in list order. */
  function Outcomes(items: seq<CsItem>, fetch: (nat, seq<QueryParam>) -> HttpOutcome,
                    insert: (nat, PriceRecord) -> InsertOutcome): (os: seq<ItemOutcome>)
    ensures |os| == |items|
  {
    seq(|items|, k requires 0 <= k < |items| => Resolve(k, items[k], fetch, insert))
  }

  /** The counters after one more item. */
  function Step(t: Tally, o: ItemOutcome): Tally {
    match o
    case Skipped(_) => t.(skipped := t.skipped + 1)
    case Succeeded(rec) => t.(success := t.success + 1, inserts := t.inserts + [rec])
    case Failed(rec, m) => t.(failed := t.failed + 1, errors := t.errors + [m], inserts := t.inserts + [rec])
  }

  /** The counters after a whole list of outcomes, starting from zero. */
  function TallyOf(os: seq<ItemOutcome>): Tally
    decreases |os|
  {
    if |os| == 0 then Tally(0, 0, 0, [], []) else Step(TallyOf(os[..|os| - 1]), os[|os| - 1])
  }

  /** The summary returned when a run completes; `errors` is omitted when empty. */
  function Report(message: string, items: seq<CsItem>, t: Tally): (r: Response)
    ensures r.Completed? && r.total == |items|
    ensures r.errors.None? <==> |t.errors| == 0
  {
    Completed(message, |items|, t.success, t.failed, t.skipped, if |t.errors| > 0 then Some(t.errors) else None)
  }

  // ---------------------------------------------------------------------------
  // Properties of the per-item rule

  /** An item is skipped before any request exactly when its definition index is falsy or both bounds are null. */
  lemma SkippedUpFrontIff(k: nat, item: CsItem, fetch: (nat, seq<QueryParam>) -> HttpOutcome,
                          insert: (nat, PriceRecord) -> InsertOutcome)
    ensures Resolve(k, item, fetch, insert) == Skipped(Ineligible) <==>
              (item.defIndex.None? || item.defIndex.value == 0 || (item.minFloat.None? && item.maxFloat.None?))
  {
  }

  /** A failed request or an empty page makes the item a skip, never a failure. */
  lemma FetchFailureIsSkip(k: nat, item: CsItem, fetch: (nat, seq<QueryParam>) -> HttpOutcome,
                           insert: (nat, PriceRecord) -> InsertOutcome)
    requires Eligible(item)
    requires ListingsResponse(fetch(k, RouteQuery(item))).Err?
             || ListingsResponse(fetch(k, RouteQuery(item))) == Ok(ListingPage([]))
    ensures Resolve(k, item, fetch, insert) == Skipped(NoPrice)
  {
  }

  /**
   * The first listing's price is taken as it stands, whatever the later
   * listings cost.
   */
  lemma FirstListingPriceIsTaken(k: nat, item: CsItem, fetch: (nat, seq<QueryParam>) -> HttpOutcome,
                                 insert: (nat, PriceRecord) -> InsertOutcome, status: int, text: string, data: seq<Listing>)
    requires Eligible(item) && IsOkStatus(status) && |data| > 0
    requires fetch(k, RouteQuery(item)) == Response(status, text, ListingPage(data))
    requires insert(k, RecordFor(item, data[0].price)) == Inserted
    ensures Resolve(k, item, fetch, insert).Succeeded?
    ensures Resolve(k, item, fetch, insert).record.priceCents == data[0].price
  {
  }

  /** Failures come only from a failed insert, and carry the item's labelled message. */
  lemma FailureOnlyFromInsert(k: nat, item: CsItem, fetch: (nat, seq<QueryParam>) -> HttpOutcome,
                              insert: (nat, PriceRecord) -> InsertOutcome)
    requires Resolve(k, item, fetch, insert).Failed?
    ensures Eligible(item)
    ensures LowestPrice(fetch(k, RouteQuery(item))).Some?
    ensures var rec := RecordFor(item, LowestPrice(fetch(k, RouteQuery(item))).value);
            insert(k, rec).InsertError?
            && Resolve(k, item, fetch, insert).message == FailureMessage(item, insert(k, rec).message)
  {
  }

  /** Every attempted insert stores the cents, the same amount in dollars, and the provider tag. */
  lemma RecordUnits(k: nat, item: CsItem, fetch: (nat, seq<QueryParam>) -> HttpOutcome,
                    insert: (nat, PriceRecord) -> InsertOutcome)
    requires !Resolve(k, item, fetch, insert).Skipped?
    ensures var rec := Resolve(k, item, fetch, insert).record;
            rec.itemId == item.id && rec.price * 100.0 == rec.priceCents as real && rec.source == "csfloat"
  {
  }

  /** Every failure message starts with `Item <id> (<def_name>): `. */
  lemma FailureMessageLabel(item: CsItem, m: string)
    ensures var prefix := "Item " + IntToString(item.id) + " (" + item.defName + "): ";
            |prefix| <= |FailureMessage(item, m)| && FailureMessage(item, m)[..|prefix|] == prefix
  {
  }

  /** The defined form of one item parameter: its number, or nothing. */
  function ParamsOf(e: Entry): seq<QueryParam> {
    if e.value.Number? then [ParamOf(e)] else []
  }

  lemma ItemEntriesLimit(item: CsItem)
    ensures WithLimit(ItemEntries(item), 5.0) == ItemEntries(item) + [Entry("limit", Number(5.0))]
  {
    var e := ItemEntries(item);
    assert forall x :: x in e ==> x.key in {"def_index", "paint_index", "min_float", "max_float", "category"};
    WithLimitAppends(e, 5.0);
  }

  lemma DefinedParamsPrefixStep(e: seq<Entry>, k: nat)
    requires k < |e|
    ensures DefinedParams(e[..k + 1]) == DefinedParams(e[..k]) + ParamsOf(e[k])
  {
    assert e[..k + 1] == e[..k] + [e[k]];
    DefinedParamsSnoc(e[..k], e[k]);
  }

  lemma DefinedParamsOfSix(e: seq<Entry>)
    requires |e| == 6
    ensures DefinedParams(e) == ParamsOf(e[0]) + ParamsOf(e[1]) + ParamsOf(e[2]) + ParamsOf(e[3]) + ParamsOf(e[4]) + ParamsOf(e[5])
  {
    assert e[..0] == [];
    DefinedParamsPrefixStep(e, 0);
    assert DefinedParams(e[..1]) == ParamsOf(e[0]);
    DefinedParamsPrefixStep(e, 1);
    DefinedParamsPrefixStep(e, 2);
    DefinedParamsPrefixStep(e, 3);
    DefinedParamsPrefixStep(e, 4);
    DefinedParamsPrefixStep(e, 5);
    assert e[..6] == e;
  }

  /** The query, written out: the defaults, each defined item parameter in order, then `limit=5`. */
  lemma RouteQueryParts(item: CsItem)
    ensures var e := ItemEntries(item);
            RouteQuery(item) == DefaultParams + ParamsOf(e[0]) + ParamsOf(e[1]) + ParamsOf(e[2])
                                + ParamsOf(e[3]) + ParamsOf(e[4]) + [QueryParam("limit", Num(5.0))]
  {
    var e := ItemEntries(item);
    var lim := Entry("limit", Number(5.0));
    ItemEntriesLimit(item);
    var e' := e + [lim];
    DefinedParamsOfSix(e');
    assert e'[0] == e[0] && e'[1] == e[1] && e'[2] == e[2] && e'[3] == e[3] && e'[4] == e[4] && e'[5] == lim;
  }

  /** The query starts with the sort and type defaults; everything after them is numeric. */
  lemma RouteQueryDefaults(item: CsItem)
    ensures |RouteQuery(item)| >= 2
    ensures RouteQuery(item)[0] == QueryParam("sort_by", Str("lowest_price"))
    ensures RouteQuery(item)[1] == QueryParam("type", Str("buy_now"))
    ensures forall p :: p in RouteQuery(item)[2..] ==> p.value.Num?
    ensures QueryParam("category", Num(item.category as real)) in RouteQuery(item)
  {
    var e := ItemEntries(item);
    RouteQueryParts(item);
    var tail := ParamsOf(e[0]) + ParamsOf(e[1]) + ParamsOf(e[2]) + ParamsOf(e[3]) + ParamsOf(e[4]) + [QueryParam("limit", Num(5.0))];
    assert RouteQuery(item) == DefaultParams + tail;
    assert RouteQuery(item)[2..] == tail;
  }

  /** The query carries `limit=5` exactly once. */
  lemma RouteQueryLimit(item: CsItem)
    ensures KeyCount(RouteQuery(item), "limit") == 1
    ensures QueryParam("limit", Num(5.0)) in RouteQuery(item)
  {
    var e := ItemEntries(item);
    assert DistinctKeys(e);
    WithLimitSingleLimit(e, 5.0);
    var tail := DefinedParams(WithLimit(e, 5.0));
    KeyCountAppend(DefaultParams, tail, "limit");
    assert KeyCount(DefaultParams, "limit") == 0;
  }

  /** A paint index or wear bound that is null or 0 is left out of the query altogether. */
  lemma RouteQueryOmitsFalsy(item: CsItem)
    ensures !TruthyInt(item.paintIndex) ==> forall p :: p in RouteQuery(item) ==> p.key != "paint_index"
    ensures (item.minFloat.None? || item.minFloat.value == 0.0) ==> forall p :: p in RouteQuery(item) ==> p.key != "min_float"
    ensures (item.maxFloat.None? || item.maxFloat.value == 0.0) ==> forall p :: p in RouteQuery(item) ==> p.key != "max_float"
  {
    RouteQueryParts(item);
  }

  // ---------------------------------------------------------------------------
  // Properties of the counters

  /**
   * Every item bumps exactly one counter, an error is recorded per failure,
   * and an insert is attempted for each success and each failure.
   */
  lemma {:induction false} TallyConservation(os: seq<ItemOutcome>)
    ensures TallyOf(os).success + TallyOf(os).failed + TallyOf(os).skipped == |os|
    ensures |TallyOf(os).errors| == TallyOf(os).failed
    ensures |TallyOf(os).inserts| == TallyOf(os).success + TallyOf(os).failed
    decreases |os|
  {
    if |os| > 0 {
      TallyConservation(os[..|os| - 1]);
    }
  }

  /** Every recorded message is the message of some failed outcome. */
  lemma {:induction false} TallyErrorsAreFailures(os: seq<ItemOutcome>, i: nat)
    requires i < |TallyOf(os).errors|
    ensures exists k :: 0 <= k < |os| && os[k].Failed? && os[k].message == TallyOf(os).errors[i]
    decreases |os|
  {
    var init := os[..|os| - 1];
    var last := os[|os| - 1];
    if i < |TallyOf(init).errors| {
      TallyErrorsAreFailures(init, i);
      var k :| 0 <= k < |init| && init[k].Failed? && init[k].message == TallyOf(init).errors[i];
      assert os[k] == init[k];
    } else {
      assert last.Failed? && TallyOf(os).errors[i] == last.message;
    }
  }

  /** The messages of the failed outcomes, in list order. */
  function FailedMessages(os: seq<ItemOutcome>): seq<string>
    decreases |os|
  {
    if |os| == 0 then []
    else FailedMessages(os[..|os| - 1]) + (if os[|os| - 1].Failed? then [os[|os| - 1].message] else [])
  }

  /** The records of the outcomes that reached the insert, in list order. */
  function AttemptedRecords(os: seq<ItemOutcome>): seq<PriceRecord>
    decreases |os|
  {
    if |os| == 0 then []
    else AttemptedRecords(os[..|os| - 1]) + (if os[|os| - 1].Skipped? then [] else [os[|os| - 1].record])
  }

  /**
   * The error list is exactly the failed outcomes' messages, and the insert
   * list the records of the successes and failures, both in list order.
   */
  lemma {:induction false} TallyListsInOrder(os: seq<ItemOutcome>)
    ensures TallyOf(os).errors == FailedMessages(os)
    ensures TallyOf(os).inserts == AttemptedRecords(os)
    decreases |os|
  {
    if |os| > 0 {
      TallyListsInOrder(os[..|os| - 1]);
    }
  }

  /**
   * The run's `results` object. Both routes mutate it item by item; the
   * abstract value is the `Tally` it holds.
   */
  class Results {
    var success: nat
    var failed: nat
    var skipped: nat
    var errors: seq<string>
    var inserts: seq<PriceRecord>

    function State(): Tally
      reads this
    {
      Tally(success, failed, skipped, errors, inserts)
    }

    constructor ()
      ensures State() == Tally(0, 0, 0, [], [])
    {
      success, failed, skipped := 0, 0, 0;
      errors, inserts := [], [];
    }

    /**
     * The body of the per-item `try` block of both routes: skip, look the
     * price up, insert it, and bump the matching counter.
     */
    method ProcessItem(k: nat, item: CsItem, fetch: (nat, seq<QueryParam>) -> HttpOutcome,
                       insert: (nat, PriceRecord) -> InsertOutcome) returns (o: ItemOutcome)
      modifies this
      ensures o == Resolve(k, item, fetch, insert)
      ensures State() == Step(old(State()), o)
    {
      if !TruthyInt(item.defIndex) || (item.minFloat.None? && item.maxFloat.None?) {
        skipped := skipped + 1;
        return Skipped(Ineligible);
      }
      var query := BuildRouteQuery(item);
      var price := LowestPrice(fetch(k, query));
      if price.Some? {
        var rec := RecordFor(item, price.value);
        inserts := inserts + [rec];
        var answer := insert(k, rec);
        if answer.InsertError? {
          var m := FailureMessage(item, answer.message);
          failed := failed + 1;
          errors := errors + [m];
          o := Failed(rec, m);
        } else {
          success := success + 1;
          o := Succeeded(rec);
        }
      } else {
        skipped := skipped + 1;
        o := Skipped(NoPrice);
      }
    }
  }
}
