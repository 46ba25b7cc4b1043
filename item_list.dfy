/**
 * The display rules of the catalog table: the category label, the paint
 * cell, the wear-range cell and the market-name cell. Decimal rendering of
 * a wear bound (`toFixed(4)`) is a parameter.
 */
module ItemList {
  import opened Wrappers
  import opened Text
  import opened Rows

  /** What a table cell shows: a grey dash, or text. */
  datatype Cell = Dash | Text(text: string)

  /** `getCategoryLabel`: the four known categories by number, anything else "Unknown". */
  function GetCategoryLabel(category: int): (name: string)
    ensures name == "Unknown" <==> !(0 <= category <= 3)
    ensures category == 0 ==> name == "Weapon"
    ensures category == 1 ==> name == "Knife"
    ensures category == 2 ==> name == "Glove"
    ensures category == 3 ==> name == "Other"
  {
    match category
    case 0 => "Weapon"
    case 1 => "Knife"
    case 2 => "Glove"
    case 3 => "Other"
    case _ => "Unknown"
  }

  /** The known categories have pairwise different labels. */
  lemma CategoryLabelsDistinct(a: int, b: int)
    requires 0 <= a <= 3 && 0 <= b <= 3 && a != b
    ensures GetCategoryLabel(a) != GetCategoryLabel(b)
  {
  }

  /**
   * The paint cell: the paint index, a space, and `(paint_name)` when the
   * name is non-empty; a dash when the index is missing or 0.
   */
  function PaintCell(item: CsItem): (c: Cell)
    ensures c.Text? <==> item.paintIndex.Some? && item.paintIndex.value != 0
    ensures c.Text? ==> var prefix := IntToString(item.paintIndex.value) + " ";
                        |prefix| <= |c.text| && c.text[..|prefix|] == prefix
                        && (TruthyString(item.paintName) <==> |c.text| > |prefix|)
                        && (TruthyString(item.paintName) ==> c.text[|prefix|..] == "(" + item.paintName.value + ")")
  {
    if item.paintIndex.Some? && item.paintIndex.value != 0 then
      var prefix := IntToString(item.paintIndex.value) + " ";
      Text(prefix + (if TruthyString(item.paintName) then "(" + item.paintName.value + ")" else ""))
    else Dash
  }

  /** One wear bound: its four-decimal rendering, or "?" when missing. */
  function BoundText(bound: Option<real>, fixed4: real -> string): string {
    if bound.Some? then fixed4(bound.value) else "?"
  }

  /** The wear-range cell: "min - max" when at least one bound is present, else a dash. */
  function FloatRangeCell(item: CsItem, fixed4: real -> string): (c: Cell)
    ensures c.Text? <==> item.minFloat.Some? || item.maxFloat.Some?
    ensures c.Text? ==> c.text == BoundText(item.minFloat, fixed4) + " - " + BoundText(item.maxFloat, fixed4)
  {
    if item.minFloat.Some? || item.maxFloat.Some? then
      Text(BoundText(item.minFloat, fixed4) + " - " + BoundText(item.maxFloat, fixed4))
    else Dash
  }

  /** A missing bound shows as "?" on its own side of the separator; with neither bound the cell is a dash. */
  lemma MissingBoundShowsQuestionMark(item: CsItem, fixed4: real -> string)
    ensures item.minFloat.None? && item.maxFloat.Some? ==>
              FloatRangeCell(item, fixed4) == Text("? - " + fixed4(item.maxFloat.value))
    ensures item.minFloat.Some? && item.maxFloat.None? ==>
              FloatRangeCell(item, fixed4) == Text(fixed4(item.minFloat.value) + " - ?")
    ensures item.minFloat.Some? && item.maxFloat.Some? ==>
              FloatRangeCell(item, fixed4) == Text(fixed4(item.minFloat.value) + " - " + fixed4(item.maxFloat.value))
    ensures item.minFloat.None? && item.maxFloat.None? ==> FloatRangeCell(item, fixed4) == Dash
  {
  }

  /**
   * The cell tests the bounds against `null`, not for truthiness: a bound of 0
   * is shown as its rendering, unlike in the price routes, where it is dropped.
   */
  lemma ZeroBoundIsShown(item: CsItem, fixed4: real -> string)
    requires item.minFloat == Some(0.0)
    ensures FloatRangeCell(item, fixed4).Text?
    ensures var t := FloatRangeCell(item, fixed4).text;
            |fixed4(0.0)| <= |t| && t[..|fixed4(0.0)|] == fixed4(0.0)
  {
    var t := FloatRangeCell(item, fixed4).text;
    assert t == fixed4(0.0) + (" - " + BoundText(item.maxFloat, fixed4));
  }

  /** The market-name cell: the name when non-empty, else a dash. */
  function MarketHashCell(item: CsItem): (c: Cell)
    ensures c.Text? <==> TruthyString(item.marketHashName)
    ensures c.Text? ==> c.text == item.marketHashName.value
  {
    if TruthyString(item.marketHashName) then Text(item.marketHashName.value) else Dash
  }

  /** When the cell shows a name, it is the item's display name; a dash means the display name falls back to `def_name`. */
  lemma MarketHashCellIsDisplayName(item: CsItem)
    ensures MarketHashCell(item).Text? ==> MarketHashCell(item).text == DisplayName(item)
    ensures MarketHashCell(item) == Dash <==> DisplayName(item) == item.defName && !TruthyString(item.marketHashName)
  {
  }
}
