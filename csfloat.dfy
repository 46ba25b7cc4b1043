/**
 * The CSFloat listings client: turning a parameter object into query
 * parameters, interpreting the HTTP response, and the averaging helper.
 * The network call is an oracle from the query to an HTTP outcome.
 */
module CsFloat {
  import opened Wrappers
  import opened Text

  /** A property value of a JavaScript parameter object. */
  datatype JsValue = Undefined | Null | Number(n: real)

  /** One `[key, value]` pair of `Object.entries(params)`, in insertion order. */
  datatype Entry = Entry(key: string, value: JsValue)

  /** The value of a query parameter before `toString`: a literal string or a number. */
  datatype ParamValue = Str(s: string) | Num(n: real)

  datatype QueryParam = QueryParam(key: string, value: ParamValue)

  /** One listing of the listings endpoint; `price` is in cents. */
  datatype Listing = Listing(price: int)

  /**
   * What `response.json()` yields: text that is not JSON, a bare array of
   * listings, or a page object `{cursor, data}`.
   */
  datatype Body = Unparsable(message: string) | ListingArray(listings: seq<Listing>) | ListingPage(data: seq<Listing>)

  /** The outcome of one `fetch`: a transport error, or a status with its body. */
  datatype HttpOutcome = TransportError(message: string) | Response(status: int, statusText: string, body: Body)

  /** Object spread cannot produce two properties with the same key. */
  predicate DistinctKeys(entries: seq<Entry>) {
    forall i, j :: 0 <= i < j < |entries| ==> entries[i].key != entries[j].key
  }

  /** The query parameter `searchParams.append(key, value.toString())` adds for an entry. */
  function ParamOf(e: Entry): QueryParam
    requires e.value.Number?
  {
    QueryParam(e.key, Num(e.value.n))
  }

  /** The entries whose value is neither `undefined` nor `null`, as query parameters, in order. */
  function DefinedParams(entries: seq<Entry>): (q: seq<QueryParam>)
    ensures |q| <= |entries|
    decreases |entries|
  {
    if |entries| == 0 then []
    else
      var init, last := entries[..|entries| - 1], entries[|entries| - 1];
      DefinedParams(init) + (if last.value.Number? then [ParamOf(last)] else [])
  }

  /** The parameters are exactly the defined entries: none is dropped, none is invented. */
  lemma {:induction false} DefinedParamsMembers(entries: seq<Entry>)
    ensures forall e :: e in entries && e.value.Number? ==> ParamOf(e) in DefinedParams(entries)
    ensures forall p :: p in DefinedParams(entries) ==> exists e :: e in entries && e.value.Number? && ParamOf(e) == p
    decreases |entries|
  {
    if |entries| > 0 {
      var init, last := entries[..|entries| - 1], entries[|entries| - 1];
      DefinedParamsMembers(init);
      assert forall e :: e in entries ==> e in init || e == last;
      assert forall e :: e in init ==> e in entries;
    }
  }

  /** Filtering commutes with concatenation, so the parameters keep the entries' order. */
  lemma {:induction false} DefinedParamsAppend(a: seq<Entry>, b: seq<Entry>)
    ensures DefinedParams(a + b) == DefinedParams(a) + DefinedParams(b)
    decreases |b|
  {
    if |b| > 0 {
      var b' := b[..|b| - 1];
      assert (a + b)[..|a + b| - 1] == a + b';
      DefinedParamsAppend(a, b');
    } else {
      assert a + b == a;
    }
  }

  lemma DefinedParamsSnoc(entries: seq<Entry>, e: Entry)
    ensures DefinedParams(entries + [e]) == DefinedParams(entries) + if e.value.Number? then [ParamOf(e)] else []
  {
    assert (entries + [e])[..|entries|] == entries;
  }

  lemma DefinedParamsSingle(e: Entry)
    ensures DefinedParams([e]) == if e.value.Number? then [ParamOf(e)] else []
  {
    assert [e][..0] == [];
  }

  /** Without a `limit` entry, the override appends one at the end. */
  lemma {:induction false} WithLimitAppends(entries: seq<Entry>, l: real)
    requires forall e :: e in entries ==> e.key != "limit"
    ensures WithLimit(entries, l) == entries + [Entry("limit", Number(l))]
    decreases |entries|
  {
    if |entries| > 0 {
      assert forall e :: e in entries[1..] ==> e in entries;
      WithLimitAppends(entries[1..], l);
      assert entries == [entries[0]] + entries[1..];
    }
  }

  /**
   * The `forEach` over `Object.entries(params)` that appends every defined
   * entry to the URL's search parameters, starting from `q0`.
   */
  method AppendDefined(q0: seq<QueryParam>, entries: seq<Entry>) returns (q: seq<QueryParam>)
    ensures q == q0 + DefinedParams(entries)
  {
    q := q0;
    var i := 0;
    while i < |entries|
      invariant 0 <= i <= |entries|
      invariant q == q0 + DefinedParams(entries[..i])
    {
      var e := entries[i];
      assert entries[..i + 1][..i] == entries[..i];
      if e.value.Number? {
        q := q + [QueryParam(e.key, Num(e.value.n))];
      }
      i := i + 1;
    }
    assert entries[..i] == entries;
  }

  /** `{ ...params, limit: l }`: an existing `limit` keeps its place and takes the new value. */
  function WithLimit(entries: seq<Entry>, l: real): (r: seq<Entry>)
    decreases |entries|
  {
    if |entries| == 0 then [Entry("limit", Number(l))]
    else if entries[0].key == "limit" then [Entry("limit", Number(l))] + entries[1..]
    else [entries[0]] + WithLimit(entries[1..], l)
  }

  /** The override keeps every other property and adds nothing but the new limit. */
  lemma {:induction false} WithLimitMembers(entries: seq<Entry>, l: real)
    ensures forall e :: e in entries && e.key != "limit" ==> e in WithLimit(entries, l)
    ensures forall e :: e in WithLimit(entries, l) ==> e == Entry("limit", Number(l)) || e in entries
    decreases |entries|
  {
    if |entries| > 0 && entries[0].key != "limit" {
      WithLimitMembers(entries[1..], l);
      assert forall e :: e in entries ==> e == entries[0] || e in entries[1..];
    }
  }

  /** How many parameters of `q` have the key `k`. */
  function KeyCount(q: seq<QueryParam>, k: string): nat {
    if |q| == 0 then 0 else (if q[0].key == k then 1 else 0) + KeyCount(q[1..], k)
  }

  lemma {:induction false} KeyCountAppend(a: seq<QueryParam>, b: seq<QueryParam>, k: string)
    ensures KeyCount(a + b, k) == KeyCount(a, k) + KeyCount(b, k)
    decreases |a|
  {
    if |a| > 0 {
      assert (a + b)[1..] == a[1..] + b;
      KeyCountAppend(a[1..], b, k);
    } else {
      assert a + b == b;
    }
  }

  lemma {:induction false} NoKeyNoCount(entries: seq<Entry>, k: string)
    requires forall e :: e in entries ==> e.key != k
    ensures KeyCount(DefinedParams(entries), k) == 0
    decreases |entries|
  {
    if |entries| > 0 {
      var init := entries[..|entries| - 1];
      assert forall e :: e in init ==> e in entries;
      NoKeyNoCount(init, k);
      var last := entries[|entries| - 1];
      KeyCountAppend(DefinedParams(init), if last.value.Number? then [ParamOf(last)] else [], k);
    }
  }

  /**
   * Overriding the limit leaves exactly one `limit` parameter in the query,
   * and it carries the new value, whatever limit the caller passed.
   */
  lemma WithLimitSingleLimit(entries: seq<Entry>, l: real)
    requires DistinctKeys(entries)
    ensures KeyCount(DefinedParams(WithLimit(entries, l)), "limit") == 1
    ensures QueryParam("limit", Num(l)) in DefinedParams(WithLimit(entries, l))
    ensures forall p :: p in DefinedParams(WithLimit(entries, l)) && p.key == "limit" ==> p.value == Num(l)
  {
    WithLimitHasOneLimit(entries, l);
    OnlyOneWithKey(DefinedParams(WithLimit(entries, l)), QueryParam("limit", Num(l)));
  }

  /** A key that occurs once belongs to the one parameter known to carry it. */
  lemma {:induction false} OnlyOneWithKey(q: seq<QueryParam>, x: QueryParam)
    requires KeyCount(q, x.key) == 1 && x in q
    ensures forall p :: p in q && p.key == x.key ==> p == x
    decreases |q|
  {
    if q[0] == x {
      NoOtherWithKey(q[1..], x.key);
    } else {
      assert q[0].key != x.key by {
        if q[0].key == x.key {
          assert x in q[1..];
          KeyCountPositive(q[1..], x);
        }
      }
      OnlyOneWithKey(q[1..], x);
    }
  }

  lemma {:induction false} KeyCountPositive(q: seq<QueryParam>, x: QueryParam)
    requires x in q
    ensures KeyCount(q, x.key) >= 1
    decreases |q|
  {
    if q[0] != x {
      KeyCountPositive(q[1..], x);
    }
  }

  lemma NoOtherWithKey(q: seq<QueryParam>, k: string)
    requires KeyCount(q, k) == 0
    ensures forall p :: p in q ==> p.key != k
  {
    forall p | p in q ensures p.key != k {
      if p.key == k {
        KeyCountPositive(q, p);
      }
    }
  }

  lemma {:induction false} WithLimitHasOneLimit(entries: seq<Entry>, l: real)
    requires DistinctKeys(entries)
    ensures KeyCount(DefinedParams(WithLimit(entries, l)), "limit") == 1
    ensures QueryParam("limit", Num(l)) in DefinedParams(WithLimit(entries, l))
    decreases |entries|
  {
    var lim := Entry("limit", Number(l));
    if |entries| == 0 {
      assert WithLimit(entries, l) == [lim];
      assert DefinedParams([lim]) == DefinedParams([]) + [ParamOf(lim)];
    } else if entries[0].key == "limit" {
      var rest := entries[1..];
      assert forall e :: e in rest ==> e.key != "limit" by {
        forall e | e in rest ensures e.key != "limit" {
          var j :| 0 <= j < |rest| && rest[j] == e;
          assert entries[j + 1] == e;
        }
      }
      DefinedParamsAppend([lim], rest);
      assert [lim] + rest == WithLimit(entries, l);
      assert DefinedParams([lim]) == DefinedParams([]) + [ParamOf(lim)];
      NoKeyNoCount(rest, "limit");
      KeyCountAppend(DefinedParams([lim]), DefinedParams(rest), "limit");
    } else {
      var rest := entries[1..];
      assert DistinctKeys(rest) by {
        forall i, j | 0 <= i < j < |rest| ensures rest[i].key != rest[j].key {
          assert rest[i] == entries[i + 1] && rest[j] == entries[j + 1];
        }
      }
      WithLimitHasOneLimit(rest, l);
      var w := WithLimit(rest, l);
      assert [entries[0]] + w == WithLimit(entries, l);
      DefinedParamsAppend([entries[0]], w);
      var head := DefinedParams([entries[0]]);
      assert head == DefinedParams([]) + (if entries[0].value.Number? then [ParamOf(entries[0])] else []);
      KeyCountAppend(head, DefinedParams(w), "limit");
      assert KeyCount(head, "limit") == 0;
    }
  }

  predicate IsOkStatus(status: int) {
    200 <= status <= 299
  }

  /**
   * The body a listings request resolves to, or the error it raises: a
   * transport error or unparsable body propagates, and a non-2xx status
   * raises `CSFloat API returned <status>: <statusText>`.
   */
  function ListingsResponse(h: HttpOutcome): (r: Result<Body>)
    ensures r.Ok? <==> h.Response? && IsOkStatus(h.status) && !h.body.Unparsable?
    ensures r.Ok? ==> r.value == h.body
    ensures h.Response? && !IsOkStatus(h.status) ==>
              r == Err("CSFloat API returned " + IntToString(h.status) + ": " + h.statusText)
    ensures h.TransportError? ==> r == Err(h.message)
  {
    match h
    case TransportError(m) => Err(m)
    case Response(status, text, body) =>
      if !IsOkStatus(status) then Err("CSFloat API returned " + IntToString(status) + ": " + text)
      else if body.Unparsable? then Err(body.message)
      else Ok(body)
  }

  /**
   * `fetchListings`: the query is exactly the caller's defined parameters,
   * with no default sort or type; errors are rethrown to the caller.
   */
  method FetchListings(entries: seq<Entry>, fetch: seq<QueryParam> -> HttpOutcome)
      returns (query: seq<QueryParam>, r: Result<Body>)
    ensures query == DefinedParams(entries)
    ensures r == ListingsResponse(fetch(query))
  {
    query := AppendDefined([], entries);
    var response := fetch(query);
    if response.TransportError? {
      r := Err(response.message);
    } else if !IsOkStatus(response.status) {
      r := Err("CSFloat API returned " + IntToString(response.status) + ": " + response.statusText);
    } else if response.body.Unparsable? {
      r := Err(response.body.message);
    } else {
      r := Ok(response.body);
    }
  }

  /** The `fetchListings` query holds a key only if the caller supplied it. */
  lemma FetchListingsAddsNoDefaults(entries: seq<Entry>, k: string)
    requires forall e :: e in entries ==> e.key != k
    ensures forall p :: p in DefinedParams(entries) ==> p.key != k
  {
    DefinedParamsMembers(entries);
  }

  function SumPrices(ls: seq<Listing>): int {
    if |ls| == 0 then 0 else SumPrices(ls[..|ls| - 1]) + ls[|ls| - 1].price
  }

  function Mean(ls: seq<Listing>): real
    requires |ls| > 0
  {
    SumPrices(ls) as real / |ls| as real
  }

  /**
   * `getAveragePrice`: the limit is forced to 5; an error of any kind, an
   * empty array, or a body that is not an array (its `reduce` raises) yields
   * null; otherwise the mean of the listed prices.
   */
  function AveragePrice(entries: seq<Entry>, fetch: seq<QueryParam> -> HttpOutcome): (r: Option<real>)
    ensures var res := ListingsResponse(fetch(DefinedParams(WithLimit(entries, 5.0))));
            r.Some? <==> res.Ok? && res.value.ListingArray? && |res.value.listings| > 0
  {
    match ListingsResponse(fetch(DefinedParams(WithLimit(entries, 5.0))))
    case Err(_) => None
    case Ok(body) =>
      match body
      case ListingArray(ls) => if |ls| == 0 then None else Some(Mean(ls))
      case _ => None
  }

  predicate IsMinPrice(ls: seq<Listing>, m: int) {
    (exists i :: 0 <= i < |ls| && ls[i].price == m) && forall i :: 0 <= i < |ls| ==> m <= ls[i].price
  }

  predicate IsMaxPrice(ls: seq<Listing>, m: int) {
    (exists i :: 0 <= i < |ls| && ls[i].price == m) && forall i :: 0 <= i < |ls| ==> ls[i].price <= m
  }

  lemma {:induction false} SumBounds(ls: seq<Listing>, lo: int, hi: int)
    requires forall i :: 0 <= i < |ls| ==> lo <= ls[i].price <= hi
    ensures |ls| * lo <= SumPrices(ls) <= |ls| * hi
    decreases |ls|
  {
    if |ls| > 0 {
      SumBounds(ls[..|ls| - 1], lo, hi);
    }
  }

  lemma DivideBounds(total: real, n: real, lo: real, hi: real)
    requires n > 0.0 && n * lo <= total <= n * hi
    ensures lo <= total / n <= hi
  {
    assert (total / n) * n == total;
  }

  lemma IntBoundsAsReal(n: int, lo: int, total: int, hi: int)
    requires n * lo <= total <= n * hi
    ensures n as real * lo as real <= total as real <= n as real * hi as real
  {
    assert (n * lo) as real == n as real * lo as real;
    assert (n * hi) as real == n as real * hi as real;
  }

  /** The average of a non-empty set of listings lies between its cheapest and dearest price. */
  lemma MeanWithinRange(ls: seq<Listing>, lo: int, hi: int)
    requires IsMinPrice(ls, lo) && IsMaxPrice(ls, hi)
    ensures |ls| > 0
    ensures lo as real <= Mean(ls) <= hi as real
  {
    SumBounds(ls, lo, hi);
    IntBoundsAsReal(|ls|, lo, SumPrices(ls), hi);
    DivideBounds(SumPrices(ls) as real, |ls| as real, lo as real, hi as real);
  }

  /**
   * Whenever `getAveragePrice` yields a value, it lies between the cheapest
   * and the dearest of the listings it averaged.
   */
  lemma AveragePriceWithinRange(entries: seq<Entry>, fetch: seq<QueryParam> -> HttpOutcome, ls: seq<Listing>, lo: int, hi: int)
    requires ListingsResponse(fetch(DefinedParams(WithLimit(entries, 5.0)))) == Ok(ListingArray(ls))
    requires IsMinPrice(ls, lo) && IsMaxPrice(ls, hi)
    ensures AveragePrice(entries, fetch).Some?
    ensures lo as real <= AveragePrice(entries, fetch).value <= hi as real
  {
    MeanWithinRange(ls, lo, hi);
  }

  /**
   * The listings endpoint answers with a page object `{cursor, data}`; on
   * such a body `getAveragePrice` yields null, because it treats the body
   * as an array.
   */
  lemma AverageOfPageIsNull(entries: seq<Entry>, fetch: seq<QueryParam> -> HttpOutcome, status: int, text: string, data: seq<Listing>)
    requires fetch(DefinedParams(WithLimit(entries, 5.0))) == Response(status, text, ListingPage(data))
    ensures AveragePrice(entries, fetch) == None
  {
  }
}
