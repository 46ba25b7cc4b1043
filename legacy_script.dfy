/**
 * The stand-alone price script: for every investment, look its current
 * price up through the market search, write the price and the position's
 * value back when the price is positive, add a price-history row when that
 * write succeeded, and wait half a second before the next investment.
 */
module LegacyScript {
  import opened Wrappers
  import opened Counting
  import opened MarketApi

  const ItemPauseMs: nat := 500

  /**
   * An `investments` row as the script reads it. The script looks the price
   * up by `item.name`, a column the row type does not declare, so the name
   * is optional here; when it is absent the search runs with the empty query.
   */
  datatype Investment = Investment(id: string, name: Option<string>, quantity: real)

  /** What the store answers to `select('*')` on `investments`. */
  datatype InvestmentsLoad = LoadError | Loaded(rows: Option<seq<Investment>>)

  /** The answer to the update of one investment: success, an error value, or a raised exception. */
  datatype UpdateOutcome = Updated | UpdateError(message: string) | UpdateRaised

  /** The writes and waits of the script, in order. */
  datatype ScriptEvent =
    | UpdateInvestment(id: string, currentPrice: real, totalCurrentValue: real, updatedAt: string)
    | InsertHistory(itemId: string, price: real)
    | Pause(ms: nat)

  /** The price found for the investment at position `k`. */
  function PriceOf(k: nat, inv: Investment, search: (nat, string) -> SearchAnswers): real {
    GetItemCurrentPrice(search(k, QueryOf(inv.name)))
  }

  /** The update sent for a positive price: the price and price times quantity. */
  function UpdateFor(inv: Investment, price: real, now: string): ScriptEvent {
    UpdateInvestment(inv.id, price, price * inv.quantity, now)
  }

  /** The store accepted the update sent for the investment at position `k`. */
  predicate Accepted(update: (nat, ScriptEvent) -> UpdateOutcome, k: nat, u: ScriptEvent) {
    update(k, u) == Updated
  }

  /** What happens for the investment at position `k`, ending with the pause. */
  function ItemEvents(k: nat, inv: Investment, search: (nat, string) -> SearchAnswers,
                      update: (nat, ScriptEvent) -> UpdateOutcome, clock: nat -> string): seq<ScriptEvent>
  {
    var price := PriceOf(k, inv, search);
    if price > 0.0 then
      var u := UpdateFor(inv, price, clock(k));
      if update(k, u) == Updated then [u, InsertHistory(inv.id, price), Pause(ItemPauseMs)]
      else [u, Pause(ItemPauseMs)]
    else [Pause(ItemPauseMs)]
  }

  /** The events of the whole loop: each investment's events, in list order. */
  function ScriptTrace(invs: seq<Investment>, search: (nat, string) -> SearchAnswers,
                       update: (nat, ScriptEvent) -> UpdateOutcome, clock: nat -> string): seq<ScriptEvent>
    decreases |invs|
  {
    if |invs| == 0 then []
    else ScriptTrace(invs[..|invs| - 1], search, update, clock)
         + ItemEvents(|invs| - 1, invs[|invs| - 1], search, update, clock)
  }

  /** `updatePrices`: a load error or no investments end the run before any write. */
  method UpdatePrices(load: InvestmentsLoad, search: (nat, string) -> SearchAnswers,
                      update: (nat, ScriptEvent) -> UpdateOutcome, clock: nat -> string)
      returns (events: seq<ScriptEvent>)
    ensures load.LoadError? || load.rows.None? ==> events == []
    ensures load.Loaded? && load.rows.Some? ==> events == ScriptTrace(load.rows.value, search, update, clock)
  {
    events := [];
    if load.LoadError? || load.rows.None? || |load.rows.value| == 0 {
      return;
    }
    var invs := load.rows.value;
    for k := 0 to |invs|
      invariant events == ScriptTrace(invs[..k], search, update, clock)
    {
      assert invs[..k + 1][..k] == invs[..k];
      ghost var before := events;
      var inv := invs[k];
      var price := GetItemCurrentPrice(search(k, QueryOf(inv.name)));
      assert price == PriceOf(k, inv, search);
      if price > 0.0 {
        var u := UpdateInvestment(inv.id, price, price * inv.quantity, clock(k));
        events := events + [u];
        var answer := update(k, u);
        assert u == UpdateFor(inv, PriceOf(k, inv, search), clock(k));
        if answer == Updated {
          events := events + [InsertHistory(inv.id, price)];
          events := events + [Pause(ItemPauseMs)];
          assert ItemEvents(k, inv, search, update, clock) == [u, InsertHistory(inv.id, price), Pause(ItemPauseMs)];
          assert events == before + [u, InsertHistory(inv.id, price), Pause(ItemPauseMs)];
        } else {
          events := events + [Pause(ItemPauseMs)];
          assert ItemEvents(k, inv, search, update, clock) == [u, Pause(ItemPauseMs)];
          assert events == before + [u, Pause(ItemPauseMs)];
        }
      } else {
        events := events + [Pause(ItemPauseMs)];
        assert events == before + ItemEvents(k, inv, search, update, clock);
      }
      assert ScriptTrace(invs[..k + 1], search, update, clock) == before + ItemEvents(k, inv, search, update, clock);
    }
    assert invs[..|invs|] == invs;
  }

  predicate IsPause(s: ScriptEvent) {
    s.Pause?
  }

  /** How many pauses the steps hold. */
  function CountPauses(t: seq<ScriptEvent>): nat {
    CountIf(t, IsPause)
  }

  lemma {:induction false} NoPauseCountsZero(t: seq<ScriptEvent>)
    requires forall i :: 0 <= i < |t| ==> !t[i].Pause?
    ensures CountPauses(t) == 0
    decreases |t|
  {
    if |t| > 0 {
      NoPauseCountsZero(t[..|t| - 1]);
    }
  }

  /** Each investment's events end with its one pause, whatever the outcome. */
  lemma ItemEventsShape(k: nat, inv: Investment, search: (nat, string) -> SearchAnswers,
                        update: (nat, ScriptEvent) -> UpdateOutcome, clock: nat -> string)
    ensures var e := ItemEvents(k, inv, search, update, clock);
            && |e| > 0 && e[|e| - 1] == Pause(ItemPauseMs) && CountPauses(e) == 1
  {
    var e := ItemEvents(k, inv, search, update, clock);
    var init := e[..|e| - 1];
    NoPauseCountsZero(init);
    CountIfAppend(init, [e[|e| - 1]], IsPause);
    assert init + [e[|e| - 1]] == e;
    assert [e[|e| - 1]][..0] == [];
  }

  /** One pause per investment: the run waits `n` times half a second. */
  lemma {:induction false} OnePausePerInvestment(invs: seq<Investment>, search: (nat, string) -> SearchAnswers,
                                                 update: (nat, ScriptEvent) -> UpdateOutcome, clock: nat -> string)
    ensures CountPauses(ScriptTrace(invs, search, update, clock)) == |invs|
    decreases |invs|
  {
    if |invs| > 0 {
      var n := |invs| - 1;
      OnePausePerInvestment(invs[..n], search, update, clock);
      ItemEventsShape(n, invs[n], search, update, clock);
      CountIfAppend(ScriptTrace(invs[..n], search, update, clock), ItemEvents(n, invs[n], search, update, clock), IsPause);
    }
  }

  /**
   * A non-positive price writes nothing; a positive one writes the price and
   * price times quantity, and a history row exactly when that write succeeded.
   */
  lemma ItemDecisions(k: nat, inv: Investment, search: (nat, string) -> SearchAnswers,
                      update: (nat, ScriptEvent) -> UpdateOutcome, clock: nat -> string)
    ensures var price := PriceOf(k, inv, search);
            var e := ItemEvents(k, inv, search, update, clock);
            && (price <= 0.0 ==> e == [Pause(ItemPauseMs)])
            && (price > 0.0 ==> e[0] == UpdateInvestment(inv.id, price, price * inv.quantity, clock(k)))
            && (InsertHistory(inv.id, price) in e <==> price > 0.0 && update(k, e[0]) == Updated)
  {
  }

  /**
   * Across the whole run, every history row comes right after a successful
   * update of the same investment at the same price, and every update carries
   * a positive price.
   */
  lemma {:induction false} HistoryFollowsSuccessfulUpdate(invs: seq<Investment>, search: (nat, string) -> SearchAnswers,
                                                          update: (nat, ScriptEvent) -> UpdateOutcome, clock: nat -> string,
                                                          t: seq<ScriptEvent>, p: nat)
    requires t == ScriptTrace(invs, search, update, clock) && p < |t|
    ensures t[p].UpdateInvestment? ==> t[p].currentPrice > 0.0
    ensures t[p].InsertHistory? ==> p > 0 && t[p - 1].UpdateInvestment?
                                    && t[p - 1].id == t[p].itemId && t[p - 1].currentPrice == t[p].price
                                    && exists k {:trigger Accepted(update, k, t[p - 1])} :: 0 <= k < |invs| && Accepted(update, k, t[p - 1])
    decreases |invs|
  {
    var n := |invs| - 1;
    var prev := ScriptTrace(invs[..n], search, update, clock);
    var e := ItemEvents(n, invs[n], search, update, clock);
    assert ScriptTrace(invs, search, update, clock) == prev + e;
    if p < |prev| {
      HistoryFollowsSuccessfulUpdate(invs[..n], search, update, clock, prev, p);
      if prev[p].InsertHistory? {
        var k :| 0 <= k < n && Accepted(update, k, prev[p - 1]);
        assert 0 <= k < |invs|;
      }
    } else if e[p - |prev|].InsertHistory? {
      assert p - |prev| == 1;
      assert Accepted(update, n, e[0]);
    }
  }
}
