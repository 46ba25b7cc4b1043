/**
 * The scheduled price update (`POST` of the cron route): a bearer-token
 * gate, the load of all items, and a loop over slices of five items with a
 * one-second pause between slices.
 *
 * The items of a slice run concurrently in the program; here they run one
 * after the other, and the contracts promise the counters exactly but the
 * error list and the inserts only up to order.
 */
module CronJob {
  import opened Wrappers
  import opened Counting
  import opened Rows
  import opened CsFloat
  import opened PriceJob

  const BatchPauseMs: nat := 1000

  /** `items.slice(i, i + batchSize)` for i = 0, 5, 10, ...: the batch size is 5. */
  function Chunks(s: seq<CsItem>): seq<seq<CsItem>>
    decreases |s|
  {
    if |s| == 0 then [] else if |s| <= 5 then [s] else [s[..5]] + Chunks(s[5..])
  }

  function Flatten(bs: seq<seq<CsItem>>): seq<CsItem> {
    if |bs| == 0 then [] else bs[0] + Flatten(bs[1..])
  }

  /** There are ceil(n/5) slices and, joined up, they give back the item list. */
  lemma {:induction false} ChunksPartition(s: seq<CsItem>)
    ensures |Chunks(s)| == (|s| + 5 - 1) / 5
    ensures Flatten(Chunks(s)) == s
    decreases |s|
  {
    if |s| > 5 {
      ChunksPartition(s[5..]);
      assert s[..5] + s[5..] == s;
    } else if |s| > 0 {
      assert Flatten(Chunks(s)) == s + Flatten([]);
    }
  }

  /** Slice j holds positions 5j up to (but excluding) min(5j + 5, n); all but the last are full. */
  lemma {:induction false} ChunkAt(s: seq<CsItem>, j: nat)
    requires j < |Chunks(s)|
    ensures 5 * j < |s|
    ensures Chunks(s)[j] == s[5 * j .. if 5 * j + 5 < |s| then 5 * j + 5 else |s|]
    ensures j + 1 < |Chunks(s)| ==> |Chunks(s)[j]| == 5
    decreases |s|
  {
    if j > 0 {
      var rest := s[5..];
      assert |s| > 5;
      assert Chunks(s)[j] == Chunks(rest)[j - 1];
      ChunkAt(rest, j - 1);
      var lo := 5 * (j - 1);
      var hi := if lo + 5 < |rest| then lo + 5 else |rest|;
      SliceOfSuffix(s, 5, lo, hi);
    }
  }

  lemma SliceOfSuffix(s: seq<CsItem>, d: nat, lo: nat, hi: nat)
    requires d <= |s| && lo <= hi <= |s| - d
    ensures s[d..][lo..hi] == s[d + lo..d + hi]
  {
    assert forall t | 0 <= t < hi - lo :: s[d..][lo..hi][t] == s[d + lo + t];
  }

  /** The facts one turn of the batched loop needs about slice `b`, which starts at `i`. */
  lemma ChunkStep(s: seq<CsItem>, b: nat, i: nat, hi: nat)
    requires i == 5 * b && i < |s| && hi == (if i + 5 < |s| then i + 5 else |s|)
    ensures b < |Chunks(s)|
    ensures s[i..hi] == Chunks(s)[b]
    ensures Chunks(s)[..b + 1] == Chunks(s)[..b] + [s[i..hi]]
    ensures hi < |s| <==> b + 1 < |Chunks(s)|
  {
    ChunkExists(s, b);
    ChunkExists(s, b + 1);
    ChunkAt(s, b);
    assert Chunks(s)[..b + 1] == Chunks(s)[..b] + [Chunks(s)[b]];
  }

  /** Extending the slice list by one extends the schedule by a pause (unless it is the first) and a dispatch. */
  lemma ScheduleStep(cs: seq<seq<CsItem>>, b: nat)
    requires b < |cs|
    ensures Schedule(cs[..b + 1]) == Schedule(cs[..b]) + (if b > 0 then [Pause(BatchPauseMs)] else []) + [Dispatch(cs[b])]
  {
    assert cs[..b + 1][..b] == cs[..b];
  }

  /** One step of the run: a slice dispatched, or a pause. */
  datatype BatchStep = Dispatch(batch: seq<CsItem>) | Pause(ms: nat)

  /** The slices in order, with a pause between consecutive slices. */
  function Schedule(bs: seq<seq<CsItem>>): seq<BatchStep>
    decreases |bs|
  {
    if |bs| == 0 then []
    else Schedule(bs[..|bs| - 1]) + (if |bs| > 1 then [Pause(BatchPauseMs)] else []) + [Dispatch(bs[|bs| - 1])]
  }

  predicate IsPause(s: BatchStep) {
    s.Pause?
  }

  /** How many pauses the steps hold. */
  function CountPauses(t: seq<BatchStep>): nat {
    CountIf(t, IsPause)
  }

  /** A pause follows every slice but the last: one fewer pause than slices, and the run ends on a dispatch. */
  lemma {:induction false} SchedulePauses(bs: seq<seq<CsItem>>)
    requires |bs| > 0
    ensures CountPauses(Schedule(bs)) == |bs| - 1
    ensures Schedule(bs)[|Schedule(bs)| - 1] == Dispatch(bs[|bs| - 1])
    ensures Schedule(bs)[0] == Dispatch(bs[0])
    decreases |bs|
  {
    var init := bs[..|bs| - 1];
    var mid: seq<BatchStep> := if |bs| > 1 then [Pause(BatchPauseMs)] else [];
    var tail := mid + [Dispatch(bs[|bs| - 1])];
    assert Schedule(bs) == Schedule(init) + tail;
    CountIfAppend(Schedule(init), tail, IsPause);
    CountIfAppend(mid, [Dispatch(bs[|bs| - 1])], IsPause);
    assert CountPauses([Dispatch(bs[|bs| - 1])]) == 0 by {
      assert [Dispatch(bs[|bs| - 1])][..0] == [];
    }
    if |bs| > 1 {
      SchedulePauses(init);
      assert CountPauses(mid) == 1 by {
        assert mid[..0] == [];
      }
    }
  }

  /** The run's counters agree with the outcomes, the errors and inserts up to the order of completion. */
  predicate AgreesUpToOrder(t: Tally, spec: Tally) {
    && t.success == spec.success && t.failed == spec.failed && t.skipped == spec.skipped
    && multiset(t.errors) == multiset(spec.errors)
    && multiset(t.inserts) == multiset(spec.inserts)
  }

  /** Slice `b` exists exactly when position 5b is inside the list. */
  lemma {:induction false} ChunkExists(s: seq<CsItem>, b: nat)
    ensures b < |Chunks(s)| <==> 5 * b < |s|
    decreases |s|
  {
    if b > 0 && |s| > 5 {
      ChunkExists(s[5..], b - 1);
    }
  }

  /** One slice: its items in order, each resolved at its own position `start + j` of the whole run. */
  method ProcessBatch(results: Results, items: seq<CsItem>, start: nat, batch: seq<CsItem>,
                      fetch: (nat, seq<QueryParam>) -> HttpOutcome, insert: (nat, PriceRecord) -> InsertOutcome)
    requires start + |batch| <= |items| && batch == items[start..start + |batch|]
    requires results.State() == TallyOf(Outcomes(items, fetch, insert)[..start])
    modifies results
    ensures results.State() == TallyOf(Outcomes(items, fetch, insert)[..start + |batch|])
  {
    ghost var os := Outcomes(items, fetch, insert);
    var j := 0;
    while j < |batch|
      invariant 0 <= j <= |batch|
      invariant results.State() == TallyOf(os[..start + j])
    {
      assert batch[j] == items[start + j];
      var o := results.ProcessItem(start + j, batch[j], fetch, insert);
      assert os[..start + j + 1][..start + j] == os[..start + j];
      j := j + 1;
    }
  }

  /** The batched loop: every slice is dispatched, its items processed, then a pause unless it was the last. */
  method RunBatches(items: seq<CsItem>, fetch: (nat, seq<QueryParam>) -> HttpOutcome,
                    insert: (nat, PriceRecord) -> InsertOutcome) returns (t: Tally, trace: seq<BatchStep>)
    ensures AgreesUpToOrder(t, TallyOf(Outcomes(items, fetch, insert)))
    ensures trace == Schedule(Chunks(items))
  {
    var results := new Results();
    ghost var os := Outcomes(items, fetch, insert);
    ghost var chunks := Chunks(items);
    var n := |items|;
    trace := [];
    var i := 0;
    ghost var b: nat := 0;
    ghost var done: nat := 0;
    ChunkExists(items, 0);
    while i < n
      invariant i == 5 * b && b <= |chunks|
      invariant i < n <==> b < |chunks|
      invariant done <= n && (b < |chunks| ==> done == i) && (b == |chunks| ==> done == n)
      invariant results.State() == TallyOf(os[..done])
      invariant trace == Schedule(chunks[..b]) + (if 0 < b < |chunks| then [Pause(BatchPauseMs)] else [])
      decreases n - i
    {
      var hi := if i + 5 < n then i + 5 else n;
      var batch := items[i..hi];
      ChunkStep(items, b, i, hi);
      ScheduleStep(chunks, b);
      trace := trace + [Dispatch(batch)];
      ProcessBatch(results, items, i, batch, fetch, insert);
      if i + 5 < n {
        trace := trace + [Pause(BatchPauseMs)];
      }
      i := i + 5;
      b := b + 1;
      done := hi;
    }
    assert chunks[..b] == chunks;
    assert os[..n] == os;
    t := results.State();
  }

  /** `Bearer ${process.env.CRON_SECRET}`: an unset secret renders as the text `undefined`. */
  function ExpectedHeader(secret: Option<string>): string {
    "Bearer " + (if secret.Some? then secret.value else "undefined")
  }

  predicate Authorized(authHeader: Option<string>, secret: Option<string>) {
    authHeader == Some(ExpectedHeader(secret))
  }

  /**
   * The cron route. `readItems` says whether the store was queried for the
   * item list; `inserts` are the rows the run tried to insert.
   */
  method Post(authHeader: Option<string>, secret: Option<string>, load: ItemsLoad,
              fetch: (nat, seq<QueryParam>) -> HttpOutcome, insert: (nat, PriceRecord) -> InsertOutcome)
      returns (resp: Response, readItems: bool, inserts: seq<PriceRecord>, trace: seq<BatchStep>)
    ensures !Authorized(authHeader, secret) ==> resp == Unauthorized && !readItems && inserts == [] && trace == []
    ensures Authorized(authHeader, secret) ==> readItems
    ensures Authorized(authHeader, secret) && load.LoadFailed? ==>
              resp == ServerError("Failed to fetch items: " + load.message) && inserts == [] && trace == []
    ensures Authorized(authHeader, secret) && load.Loaded? && (load.rows.None? || |load.rows.value| == 0) ==>
              resp == NothingToUpdate && inserts == [] && trace == []
    ensures Authorized(authHeader, secret) && load.Loaded? && load.rows.Some? && |load.rows.value| > 0 ==>
              var spec := TallyOf(Outcomes(load.rows.value, fetch, insert));
              && resp.Completed? && resp.message == "Price update completed"
              && resp.total == |load.rows.value|
              && resp.success == spec.success && resp.failed == spec.failed && resp.skipped == spec.skipped
              && (resp.errors.None? <==> spec.failed == 0)
              && (resp.errors.Some? ==> multiset(resp.errors.value) == multiset(spec.errors))
              && multiset(inserts) == multiset(spec.inserts)
              && trace == Schedule(Chunks(load.rows.value))
  {
    inserts, trace := [], [];
    if authHeader != Some("Bearer " + (if secret.Some? then secret.value else "undefined")) {
      return Unauthorized, false, inserts, trace;
    }
    readItems := true;
    if load.LoadFailed? {
      return ServerError("Failed to fetch items: " + load.message), readItems, inserts, trace;
    }
    if load.rows.None? || |load.rows.value| == 0 {
      return NothingToUpdate, readItems, inserts, trace;
    }
    var items := load.rows.value;
    var t;
    t, trace := RunBatches(items, fetch, insert);
    TallyConservation(Outcomes(items, fetch, insert));
    resp := Report("Price update completed", items, t);
    inserts := t.inserts;
  }

  /** With the secret unset, the literal header `Bearer undefined` passes the gate. */
  lemma UnsetSecretAdmitsUndefined()
    ensures Authorized(Some("Bearer undefined"), None)
  {
    assert ExpectedHeader(None) == "Bearer undefined";
  }

  /** Without a header the request is always refused. */
  lemma MissingHeaderRefused(secret: Option<string>)
    ensures !Authorized(None, secret)
  {
  }
}
