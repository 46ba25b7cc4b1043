/**
 * The manual price update (`POST` of the manual route): no authorization,
 * the items newest first, processed strictly one after the other with a
 * ten-second pause after each item that got as far as the price lookup and
 * did not fail.
 */
module ManualJob {
  import opened Wrappers
  import opened Counting
  import opened Rows
  import opened CsFloat
  import opened PriceJob

  const ItemPauseMs: nat := 10000

  /** One step of the run: the item at a position handled, or a pause. */
  datatype ManualStep = Handle(index: nat) | Pause(ms: nat)

  /**
   * The pause sits at the end of the `try` block: an ineligible item leaves
   * through `continue` and a failed insert through `throw`, both before it.
   */
  predicate PausesAfter(o: ItemOutcome) {
    o.Succeeded? || o == Skipped(NoPrice)
  }

  /** Each item handled in list order, followed by a pause when `PausesAfter` holds. */
  function ManualTrace(os: seq<ItemOutcome>): seq<ManualStep>
    decreases |os|
  {
    if |os| == 0 then []
    else ManualTrace(os[..|os| - 1]) + [Handle(|os| - 1)] + (if PausesAfter(os[|os| - 1]) then [Pause(ItemPauseMs)] else [])
  }

  predicate IsPause(s: ManualStep) {
    s.Pause?
  }

  /** How many pauses the steps hold. */
  function CountPauses(t: seq<ManualStep>): nat {
    CountIf(t, IsPause)
  }

  /** How many outcomes are skips for the given reason. */
  function CountSkips(os: seq<ItemOutcome>, reason: SkipReason): nat
    decreases |os|
  {
    if |os| == 0 then 0 else CountSkips(os[..|os| - 1], reason) + (if os[|os| - 1] == Skipped(reason) then 1 else 0)
  }

  /**
   * Every successful item and every item with no price is followed by a
   * pause; ineligible and failed items are not: the run sleeps
   * (n - ineligible - failed) times ten seconds.
   */
  lemma {:induction false} ManualPauses(os: seq<ItemOutcome>)
    ensures CountPauses(ManualTrace(os)) == TallyOf(os).success + CountSkips(os, NoPrice)
    ensures CountPauses(ManualTrace(os)) + CountSkips(os, Ineligible) + TallyOf(os).failed == |os|
    decreases |os|
  {
    if |os| > 0 {
      var init := os[..|os| - 1];
      var last := os[|os| - 1];
      var tail: seq<ManualStep> := [Handle(|os| - 1)] + (if PausesAfter(last) then [Pause(ItemPauseMs)] else []);
      ManualPauses(init);
      assert ManualTrace(os) == ManualTrace(init) + tail;
      CountIfAppend(ManualTrace(init), tail, IsPause);
      assert CountPauses([Handle(|os| - 1)]) == 0 by {
        assert [Handle(|os| - 1)][..0] == [];
      }
      if PausesAfter(last) {
        assert [Handle(|os| - 1), Pause(ItemPauseMs)][..1] == [Handle(|os| - 1)];
        assert CountPauses(tail) == 1;
      } else {
        assert tail == [Handle(|os| - 1)];
      }
      assert os[..|os| - 1] == init;
      match last
      case Skipped(r) =>
        if r == Ineligible {
          assert CountSkips(os, NoPrice) == CountSkips(init, NoPrice);
        } else {
          assert CountSkips(os, Ineligible) == CountSkips(init, Ineligible);
        }
      case _ =>
        assert CountSkips(os, Ineligible) == CountSkips(init, Ineligible);
        assert CountSkips(os, NoPrice) == CountSkips(init, NoPrice);
    }
  }

  /** The trace lists every position once, in increasing order. */
  lemma {:induction false} ManualTraceHandlesInOrder(os: seq<ItemOutcome>)
    ensures forall k :: 0 <= k < |os| ==> Handle(k) in ManualTrace(os)
    ensures forall s :: s in ManualTrace(os) && s.Handle? ==> s.index < |os|
    decreases |os|
  {
    if |os| > 0 {
      ManualTraceHandlesInOrder(os[..|os| - 1]);
    }
  }

  /** The loop of the manual route: one item at a time, pausing where the route does. */
  method RunSequential(items: seq<CsItem>, fetch: (nat, seq<QueryParam>) -> HttpOutcome,
                       insert: (nat, PriceRecord) -> InsertOutcome) returns (t: Tally, trace: seq<ManualStep>)
    ensures t == TallyOf(Outcomes(items, fetch, insert))
    ensures trace == ManualTrace(Outcomes(items, fetch, insert))
  {
    var results := new Results();
    ghost var os := Outcomes(items, fetch, insert);
    trace := [];
    for k := 0 to |items|
      invariant results.State() == TallyOf(os[..k])
      invariant trace == ManualTrace(os[..k])
    {
      assert os[..k + 1][..k] == os[..k];
      var o := results.ProcessItem(k, items[k], fetch, insert);
      trace := trace + [Handle(k)];
      if o.Succeeded? || o == Skipped(NoPrice) {
        trace := trace + [Pause(ItemPauseMs)];
      }
    }
    assert os[..|items|] == os;
    t := results.State();
  }

  /** The manual route; `inserts` are the rows the run tried to insert. */
  method Post(load: ItemsLoad, fetch: (nat, seq<QueryParam>) -> HttpOutcome,
              insert: (nat, PriceRecord) -> InsertOutcome)
      returns (resp: Response, inserts: seq<PriceRecord>, trace: seq<ManualStep>)
    ensures !resp.Unauthorized?
    ensures load.LoadFailed? ==> resp == ServerError("Failed to fetch items: " + load.message) && inserts == [] && trace == []
    ensures load.Loaded? && (load.rows.None? || |load.rows.value| == 0) ==> resp == NothingToUpdate && inserts == [] && trace == []
    ensures load.Loaded? && load.rows.Some? && |load.rows.value| > 0 ==>
              var os := Outcomes(load.rows.value, fetch, insert);
              && resp == Report("Manual price update completed", load.rows.value, TallyOf(os))
              && inserts == TallyOf(os).inserts
              && trace == ManualTrace(os)
  {
    inserts, trace := [], [];
    if load.LoadFailed? {
      return ServerError("Failed to fetch items: " + load.message), inserts, trace;
    }
    if load.rows.None? || |load.rows.value| == 0 {
      return NothingToUpdate, inserts, trace;
    }
    var items := load.rows.value;
    var t;
    t, trace := RunSequential(items, fetch, insert);
    resp := Report("Manual price update completed", items, t);
    inserts := t.inserts;
  }
}
