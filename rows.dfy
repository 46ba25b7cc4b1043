/** The `cs_items` row the ingestion jobs and the item views read. */
module Rows {
  import opened Wrappers

  /**
   * One tracked catalog item. Nullable columns are `Option`s; the wear bounds are
   * doubles in the program and reals here. `defIndex` is a plain number in the row
   * type, and is an `Option` here so that a missing value can be stated too.
   */
  datatype CsItem = CsItem(
    id: int,
    defIndex: Option<int>,
    defName: string,
    paintIndex: Option<int>,
    paintName: Option<string>,
    minFloat: Option<real>,
    maxFloat: Option<real>,
    category: int,
    marketHashName: Option<string>,
    imageUrl: Option<string>)

  /** JavaScript truthiness of a nullable string: present and non-empty. */
  predicate TruthyString(s: Option<string>) {
    s.Some? && s.value != ""
  }

  /** `item.market_hash_name || item.def_name`. */
  function DisplayName(item: CsItem): string {
    if TruthyString(item.marketHashName) then item.marketHashName.value else item.defName
  }
}
