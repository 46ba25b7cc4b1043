/**
 * The investment list: a sort configuration toggled by the column headers,
 * the rows sorted on a copy under that configuration, each row's total and
 * the footer total.
 */
module InvestmentList {
  import opened Rows
  import opened Ordering

  /** `Investment`: a purchase of some quantity of a catalog item. */
  datatype Investment = Investment(
    id: string,
    itemId: int,
    item: CsItem,
    purchaseDate: string,
    purchasePrice: real,
    quantity: real,
    createdAt: string)

  /** `keyof Investment | 'itemName'`. */
  datatype SortKey = Id | ItemId | Item | PurchaseDate | PurchasePrice | Quantity | CreatedAt | ItemName

  datatype SortConfig = SortConfig(key: SortKey, direction: Direction)

  /** The value a key reads from a row; `item` is an object, neither string nor number. */
  function KeyValue(inv: Investment, key: SortKey): SortValue {
    match key
    case Id => Str(inv.id)
    case ItemId => Num(inv.itemId as real)
    case Item => Opaque
    case PurchaseDate => Str(inv.purchaseDate)
    case PurchasePrice => Num(inv.purchasePrice)
    case Quantity => Num(inv.quantity)
    case CreatedAt => Str(inv.createdAt)
    case ItemName => Str(DisplayName(inv.item))
  }

  function KeyFn(key: SortKey): Investment -> SortValue {
    inv => KeyValue(inv, key)
  }

  /**
   * The comparator as written: strings by `localeCompare` (an abstract
   * total order, taken here as code-point order), numbers by their
   * difference, anything else 0; descending swaps the operands.
   */
  function SourceCompare(a: Investment, b: Investment, config: SortConfig): real {
    var asc := config.direction == Asc;
    if config.key == ItemName then
      var x := DisplayName(a.item);
      var y := DisplayName(b.item);
      (if asc then LexCompare(x, y) else LexCompare(y, x)) as real
    else
      match (KeyValue(a, config.key), KeyValue(b, config.key))
      case (Str(x), Str(y)) => (if asc then LexCompare(x, y) else LexCompare(y, x)) as real
      case (Num(x), Num(y)) => if asc then x - y else y - x
      case _ => 0.0
  }

  /** The comparator as written orders the rows exactly as the shared three-way comparison does. */
  lemma SourceCompareSign(a: Investment, b: Investment, config: SortConfig)
    ensures var c := Cmp(KeyValue(a, config.key), KeyValue(b, config.key), config.direction);
            && (SourceCompare(a, b, config) < 0.0 <==> c < 0)
            && (SourceCompare(a, b, config) > 0.0 <==> c > 0)
  {
    var va, vb := KeyValue(a, config.key), KeyValue(b, config.key);
    if va.Str? && vb.Str? {
      LexAntisymmetric(va.s, vb.s);
    }
  }

  /** `[...investments].sort(comparator)`. */
  function SortedInvestments(invs: seq<Investment>, config: SortConfig): seq<Investment> {
    SortBy(invs, KeyFn(config.key), config.direction)
  }

  /** A value of the kind every row yields under `key`. */
  function KindOf(key: SortKey): SortValue {
    match key
    case Item => Opaque
    case ItemId => Num(0.0)
    case PurchasePrice => Num(0.0)
    case Quantity => Num(0.0)
    case _ => Str("")
  }

  /** The sorted rows are the same rows, in the order the configuration asks for. */
  lemma SortedRowsAreOrderedPermutation(invs: seq<Investment>, config: SortConfig)
    ensures multiset(SortedInvestments(invs, config)) == multiset(invs)
    ensures forall i, j :: 0 <= i < j < |invs| ==>
              Cmp(KeyValue(SortedInvestments(invs, config)[i], config.key),
                  KeyValue(SortedInvestments(invs, config)[j], config.key), config.direction) <= 0
  {
    assert OfKind(invs, KeyFn(config.key), KindOf(config.key));
    SortBySorted(invs, KeyFn(config.key), config.direction, KindOf(config.key));
  }

  /** `purchasePrice * quantity`. */
  function RowTotal(inv: Investment): real {
    inv.purchasePrice * inv.quantity
  }

  /** The footer: the row totals summed over the unsorted input. */
  function FooterTotal(invs: seq<Investment>): real {
    Sum(invs, RowTotal)
  }

  /** The footer equals the sum of the totals of the rows as displayed, whatever the sort. */
  lemma FooterMatchesShownRows(invs: seq<Investment>, config: SortConfig)
    ensures FooterTotal(invs) == Sum(SortedInvestments(invs, config), RowTotal)
  {
    SumPermutation(invs, SortedInvestments(invs, config), RowTotal);
  }

  /** `handleSort(key)`: descending only when the same key is clicked while ascending. */
  function NextConfig(c: SortConfig, key: SortKey): (r: SortConfig)
    ensures r.key == key
    ensures r.direction == Desc <==> c.key == key && c.direction == Asc
  {
    SortConfig(key, if c.key == key && c.direction == Asc then Desc else Asc)
  }

  /** Two clicks on the current key give the configuration back; two on a new key end descending. */
  lemma NextConfigTwice(c: SortConfig, key: SortKey)
    ensures NextConfig(NextConfig(c, key), key) == if c.key == key then c else SortConfig(key, Desc)
  {
  }

  /** The component's sort state. */
  class InvestmentListView {
    var sortConfig: SortConfig

    /** Newest purchases first. */
    constructor ()
      ensures sortConfig == SortConfig(PurchaseDate, Desc)
    {
      sortConfig := SortConfig(PurchaseDate, Desc);
    }

    method HandleSort(key: SortKey)
      modifies this
      ensures sortConfig == NextConfig(old(sortConfig), key)
    {
      var direction := if sortConfig.key == key && sortConfig.direction == Asc then Desc else Asc;
      sortConfig := SortConfig(key, direction);
    }

    /** The rows as displayed under the current configuration. */
    function Displayed(invs: seq<Investment>): (r: seq<Investment>)
      reads this
      ensures multiset(r) == multiset(invs)
    {
      SortedInvestments(invs, sortConfig)
    }
  }
}
