/**
 * The investment table: a sort field and direction toggled by the column
 * headers, rows sorted on a copy with a -1/1/0 comparator, the footer
 * totals, and the green/red colouring by profit sign.
 */
module InvestmentTable {
  import opened Ordering

  /** `InvestmentItem`. */
  datatype InvestmentItem = InvestmentItem(
    id: string,
    name: string,
    imageUrl: string,
    purchaseDate: string,
    purchasePrice: real,
    currentPrice: real,
    quantity: real,
    totalInvestment: real,
    totalCurrentValue: real)

  /** `keyof InvestmentItem`. */
  datatype Field = Id | Name | ImageUrl | PurchaseDate | PurchasePrice | CurrentPrice | Quantity
                 | TotalInvestment | TotalCurrentValue

  function FieldValue(item: InvestmentItem, f: Field): SortValue {
    match f
    case Id => Str(item.id)
    case Name => Str(item.name)
    case ImageUrl => Str(item.imageUrl)
    case PurchaseDate => Str(item.purchaseDate)
    case PurchasePrice => Num(item.purchasePrice)
    case CurrentPrice => Num(item.currentPrice)
    case Quantity => Num(item.quantity)
    case TotalInvestment => Num(item.totalInvestment)
    case TotalCurrentValue => Num(item.totalCurrentValue)
  }

  function FieldFn(f: Field): InvestmentItem -> SortValue {
    item => FieldValue(item, f)
  }

  /** JavaScript `<` on two values of one field: numeric, or code-point order on strings. */
  predicate JsLess(a: SortValue, b: SortValue) {
    match (a, b)
    case (Num(x), Num(y)) => x < y
    case (Str(x), Str(y)) => StrLess(x, y)
    case _ => false
  }

  /** `x < y` on strings: a proper prefix, or a smaller code point at the first difference. */
  predicate StrLess(x: string, y: string)
    decreases |x|
  {
    if |y| == 0 then false
    else if |x| == 0 then true
    else if x[0] != y[0] then x[0] < y[0]
    else StrLess(x[1..], y[1..])
  }

  lemma {:induction false} StrLessIsLex(x: string, y: string)
    ensures StrLess(x, y) <==> LexCompare(x, y) < 0
    decreases |x|
  {
    if |x| > 0 && |y| > 0 && x[0] == y[0] {
      StrLessIsLex(x[1..], y[1..]);
    }
  }

  /** The comparator as written: -1 or 1 by `<` and `>`, reversed when descending, else 0. */
  function TableCompare(a: InvestmentItem, b: InvestmentItem, f: Field, dir: Direction): (c: int)
    ensures -1 <= c <= 1
  {
    var x, y := FieldValue(a, f), FieldValue(b, f);
    if JsLess(x, y) then (if dir == Asc then -1 else 1)
    else if JsLess(y, x) then (if dir == Asc then 1 else -1)
    else 0
  }

  /** The comparator as written is exactly the shared three-way comparison. */
  lemma TableCompareIsCmp(a: InvestmentItem, b: InvestmentItem, f: Field, dir: Direction)
    ensures TableCompare(a, b, f, dir) == Cmp(FieldValue(a, f), FieldValue(b, f), dir)
  {
    var x, y := FieldValue(a, f), FieldValue(b, f);
    if x.Str? && y.Str? {
      StrLessIsLex(x.s, y.s);
      StrLessIsLex(y.s, x.s);
      LexAntisymmetric(x.s, y.s);
    }
  }

  function SortedItems(items: seq<InvestmentItem>, f: Field, dir: Direction): seq<InvestmentItem> {
    SortBy(items, FieldFn(f), dir)
  }

  function KindOf(f: Field): SortValue {
    match f
    case Id => Str("")
    case Name => Str("")
    case ImageUrl => Str("")
    case PurchaseDate => Str("")
    case _ => Num(0.0)
  }

  /** The sorted rows are the same rows, ordered by the comparator as written. */
  lemma SortedItemsOrdered(items: seq<InvestmentItem>, f: Field, dir: Direction)
    ensures multiset(SortedItems(items, f, dir)) == multiset(items)
    ensures forall i, j :: 0 <= i < j < |items| ==>
              TableCompare(SortedItems(items, f, dir)[i], SortedItems(items, f, dir)[j], f, dir) <= 0
  {
    assert OfKind(items, FieldFn(f), KindOf(f));
    SortBySorted(items, FieldFn(f), dir, KindOf(f));
    var r := SortedItems(items, f, dir);
    forall i, j | 0 <= i < j < |items| ensures TableCompare(r[i], r[j], f, dir) <= 0 {
      TableCompareIsCmp(r[i], r[j], f, dir);
    }
  }

  function Investment(item: InvestmentItem): real { item.totalInvestment }
  function CurrentValue(item: InvestmentItem): real { item.totalCurrentValue }
  function Profit(item: InvestmentItem): real { item.totalCurrentValue - item.totalInvestment }

  /** `calculateTotalInvestment`, `calculateTotalCurrentValue`, `calculateTotalProfit`. */
  function TotalInvestment(items: seq<InvestmentItem>): real { Sum(items, Investment) }
  function TotalCurrentValue(items: seq<InvestmentItem>): real { Sum(items, CurrentValue) }
  function TotalProfit(items: seq<InvestmentItem>): real { TotalCurrentValue(items) - TotalInvestment(items) }

  /** The footer profit is the sum of the rows' profits. */
  lemma {:induction false} TotalProfitIsSumOfProfits(items: seq<InvestmentItem>)
    ensures TotalProfit(items) == Sum(items, Profit)
    decreases |items|
  {
    if |items| > 0 {
      TotalProfitIsSumOfProfits(items[1..]);
    }
  }

  /** The footer totals do not depend on the current sort. */
  lemma TotalsIgnoreSort(items: seq<InvestmentItem>, f: Field, dir: Direction)
    ensures TotalInvestment(SortedItems(items, f, dir)) == TotalInvestment(items)
    ensures TotalCurrentValue(SortedItems(items, f, dir)) == TotalCurrentValue(items)
  {
    SumPermutation(items, SortedItems(items, f, dir), Investment);
    SumPermutation(items, SortedItems(items, f, dir), CurrentValue);
  }

  /** `getRowClass`: green when the profit is not negative. */
  function RowClass(item: InvestmentItem): (c: string)
    ensures c == "bg-green-50" <==> item.totalCurrentValue >= item.totalInvestment
    ensures c == "bg-green-50" || c == "bg-red-50"
  {
    var profit := item.totalCurrentValue - item.totalInvestment;
    if profit >= 0.0 then "bg-green-50" else "bg-red-50"
  }

  /** The table's sort state. */
  class InvestmentTableView {
    var sortField: Field
    var sortDirection: Direction

    /** Latest purchases first. */
    constructor ()
      ensures sortField == PurchaseDate && sortDirection == Desc
    {
      sortField := PurchaseDate;
      sortDirection := Desc;
    }

    /** The current field flips direction; another field becomes current, ascending. */
    method HandleSort(f: Field)
      modifies this
      ensures f == old(sortField) ==> sortField == f && sortDirection == (if old(sortDirection) == Asc then Desc else Asc)
      ensures f != old(sortField) ==> sortField == f && sortDirection == Asc
    {
      if f == sortField {
        sortDirection := if sortDirection == Asc then Desc else Asc;
      } else {
        sortField := f;
        sortDirection := Asc;
      }
    }

    /** The rows as displayed. */
    function Displayed(items: seq<InvestmentItem>): (r: seq<InvestmentItem>)
      reads this
      ensures multiset(r) == multiset(items)
    {
      SortedItems(items, sortField, sortDirection)
    }
  }
}
