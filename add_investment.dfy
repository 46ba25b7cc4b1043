/**
 * The add-investment dialog: the item search filter, the default form
 * contents, and the submit sequence. The dialog's state (the form, the
 * search term and the filtered list) lives in a class whose methods play
 * the effects and handlers.
 */
module AddInvestment {
  import opened Wrappers
  import opened Text
  import opened Rows

  /** `InvestmentInput`: what the form submits. */
  datatype InvestmentInput = InvestmentInput(itemId: int, purchaseDate: string, purchasePrice: real, quantity: real)

  /** What the dialog tells its owner, in order. */
  datatype DialogEvent = OnSubmit(data: InvestmentInput) | OnClose

  /** An item is kept when its lowercased display name contains the lowercased term. */
  predicate Matches(item: CsItem, term: string) {
    Includes(ToLower(DisplayName(item)), ToLower(term))
  }

  /** `items.filter(...)` with the name test, in list order. */
  function Filter(items: seq<CsItem>, term: string): (r: seq<CsItem>)
    ensures |r| <= |items|
    ensures forall x :: x in r <==> x in items && Matches(x, term)
    decreases |items|
  {
    if |items| == 0 then []
    else
      var init := Filter(items[..|items| - 1], term);
      var last := items[|items| - 1];
      assert forall x :: x in items <==> x in items[..|items| - 1] || x == last;
      if Matches(last, term) then init + [last] else init
  }

  /** Filtering a concatenation filters each part and keeps them in order. */
  lemma {:induction false} FilterAppend(a: seq<CsItem>, b: seq<CsItem>, term: string)
    ensures Filter(a + b, term) == Filter(a, term) + Filter(b, term)
    decreases |b|
  {
    if |b| == 0 {
      assert a + b == a;
    } else {
      var b' := b[..|b| - 1];
      assert (a + b)[..|a + b| - 1] == a + b';
      FilterAppend(a, b', term);
    }
  }

  /** The search effect: a blank term shows every item; otherwise the (untrimmed) term filters. */
  function FilterItems(items: seq<CsItem>, searchTerm: string): (r: seq<CsItem>)
    ensures IsBlank(searchTerm) ==> r == items
    ensures !IsBlank(searchTerm) ==> r == Filter(items, searchTerm)
  {
    if IsBlank(searchTerm) then items else Filter(items, searchTerm)
  }

  lemma {:induction false} ToLowerIdempotent(s: string)
    ensures ToLower(ToLower(s)) == ToLower(s)
  {
    assert forall i :: 0 <= i < |s| ==> ToLower(ToLower(s))[i] == ToLower(s)[i];
  }

  lemma {:induction false} BlankUnderToLower(s: string)
    ensures IsBlank(ToLower(s)) <==> IsBlank(s)
  {
    assert forall i :: 0 <= i < |s| ==> (IsSpace(ToLower(s)[i]) <==> IsSpace(s[i]));
  }

  /** The search ignores ASCII case: a term and its lowercase select the same items. */
  lemma CaseInsensitiveSearch(items: seq<CsItem>, term: string)
    ensures FilterItems(items, ToLower(term)) == FilterItems(items, term)
  {
    BlankUnderToLower(term);
    ToLowerIdempotent(term);
    FilterSameKey(items, ToLower(term), term);
  }

  lemma {:induction false} FilterSameKey(items: seq<CsItem>, t1: string, t2: string)
    requires ToLower(t1) == ToLower(t2)
    ensures Filter(items, t1) == Filter(items, t2)
    decreases |items|
  {
    if |items| > 0 {
      FilterSameKey(items[..|items| - 1], t1, t2);
    }
  }

  /** Every item shows under the empty term; an item always finds itself under its own display name. */
  lemma OwnNameFindsItem(items: seq<CsItem>, item: CsItem)
    requires item in items
    ensures item in FilterItems(items, "")
    ensures item in FilterItems(items, DisplayName(item))
  {
    var n := ToLower(DisplayName(item));
    assert OccursAt(n, n, 0) by {
      assert n[0..|n|] == n;
    }
  }

  /**
   * The form contents the initial-data effect sets: the given data, or a
   * blank purchase of one unit of the first item, dated `today`.
   */
  function FormDefaults(initialData: Option<InvestmentInput>, items: seq<CsItem>, today: string): (f: InvestmentInput)
    ensures initialData.Some? ==> f == initialData.value
    ensures initialData.None? ==> f.purchaseDate == today && f.purchasePrice == 0.0 && f.quantity == 1.0
    ensures initialData.None? ==> f.itemId == (if |items| > 0 then items[0].id else 0)
  {
    if initialData.Some? then initialData.value
    else InvestmentInput(if |items| > 0 then items[0].id else 0, today, 0.0, 1.0)
  }

  /**
   * The dialog's state once its effects have run. `today` is the date part
   * of the current time, given from outside.
   */
  class AddInvestmentModal {
    var items: seq<CsItem>
    var initialData: Option<InvestmentInput>
    var formData: InvestmentInput
    var searchTerm: string
    var filteredItems: seq<CsItem>

    /** The filtered list always reflects the current items and search term. */
    predicate Valid()
      reads this
    {
      filteredItems == FilterItems(items, searchTerm)
    }

    /** Mounting: empty search, all items shown, form set by the initial-data effect. */
    constructor (items: seq<CsItem>, initialData: Option<InvestmentInput>, today: string)
      ensures Valid()
      ensures this.items == items && this.initialData == initialData && searchTerm == ""
      ensures filteredItems == items
      ensures formData == FormDefaults(initialData, items, today)
    {
      this.items := items;
      this.initialData := initialData;
      searchTerm := "";
      filteredItems := items;
      formData := FormDefaults(initialData, items, today);
    }

    /** Typing in the search box; the search effect then refilters. The form is untouched. */
    method SetSearchTerm(term: string)
      requires Valid()
      modifies this
      ensures Valid()
      ensures searchTerm == term && filteredItems == FilterItems(items, term)
      ensures items == old(items) && initialData == old(initialData) && formData == old(formData)
    {
      searchTerm := term;
      if IsBlank(searchTerm) {
        filteredItems := items;
      } else {
        filteredItems := Filter(items, searchTerm);
      }
    }

    /** New props: both effects run, resetting the form and refiltering under the current term. */
    method SetProps(newItems: seq<CsItem>, newInitialData: Option<InvestmentInput>, today: string)
      requires Valid()
      modifies this
      ensures Valid()
      ensures items == newItems && initialData == newInitialData && searchTerm == old(searchTerm)
      ensures formData == FormDefaults(newInitialData, newItems, today)
    {
      items := newItems;
      initialData := newInitialData;
      if initialData.Some? {
        formData := initialData.value;
      } else {
        formData := InvestmentInput(if |items| > 0 then items[0].id else 0, today, 0.0, 1.0);
      }
      if IsBlank(searchTerm) {
        filteredItems := items;
      } else {
        filteredItems := Filter(items, searchTerm);
      }
    }

    /** `handleSubmit`: hand the form to the owner, then close; nothing in the dialog changes. */
    method Submit() returns (events: seq<DialogEvent>)
      ensures events == [OnSubmit(formData), OnClose]
    {
      events := [OnSubmit(formData)];
      events := events + [OnClose];
    }
  }
}
