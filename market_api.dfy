/**
 * The market search helpers: a CSFloat item search that falls back to the
 * Steam community market search, and the current price taken from the first
 * search hit. Neither ever raises: every failure turns into a value.
 */
module MarketApi {
  import opened Wrappers

  /** One search hit; a hit can itself be null. */
  datatype Hit = NullHit | Hit(price: Option<real>)

  /** The parsed JSON body of a search answer. */
  datatype SearchBody = NullBody | Body(items: Option<seq<Hit>>)

  /**
   * What one search request yields: a failure (a network error, a non-OK
   * status or an unparsable body all raise inside the helper), or a body.
   */
  datatype SearchOutcome = SearchFailed | SearchOk(body: SearchBody)

  /** The answers of both services to the same query. */
  datatype SearchAnswers = SearchAnswers(csfloat: SearchOutcome, steam: SearchOutcome)

  /** The query string: an absent argument takes the parameter's default, the empty string. */
  function QueryOf(arg: Option<string>): string {
    if arg.Some? then arg.value else ""
  }

  /** `fetchSteamMarketItems`: the body, or `{items: []}` on any failure. */
  function FetchSteamMarketItems(steam: SearchOutcome): (b: SearchBody)
    ensures steam.SearchOk? ==> b == steam.body
    ensures steam.SearchFailed? ==> b == Body(Some([]))
  {
    match steam
    case SearchOk(body) => body
    case SearchFailed => Body(Some([]))
  }

  /** `fetchCSFloatItems`: the CSFloat body, or whatever the Steam fallback yields. */
  function FetchCSFloatItems(answers: SearchAnswers): (b: SearchBody)
    ensures answers.csfloat.SearchOk? ==> b == answers.csfloat.body
    ensures answers.csfloat.SearchFailed? ==> b == FetchSteamMarketItems(answers.steam)
  {
    match answers.csfloat
    case SearchOk(body) => body
    case SearchFailed => FetchSteamMarketItems(answers.steam)
  }

  /** JavaScript truthiness of a number: present and non-zero. */
  predicate TruthyNumber(x: Option<real>) {
    x.Some? && x.value != 0.0
  }

  /** The first hit of a body, when the body has a non-empty item list. */
  predicate HasFirstHit(b: SearchBody) {
    b.Body? && b.items.Some? && |b.items.value| > 0
  }

  /**
   * `getItemCurrentPrice`: `items[0].price || 0` when the list is non-empty.
   * Reading `.price` of a null first hit raises and is caught as 0.
   */
  function GetItemCurrentPrice(answers: SearchAnswers): (price: real)
    ensures price == 0.0 || (HasFirstHit(FetchCSFloatItems(answers))
                             && FetchCSFloatItems(answers).items.value[0] == Hit(Some(price)))
  {
    var b := FetchCSFloatItems(answers);
    if HasFirstHit(b) then
      match b.items.value[0]
      case NullHit => 0.0
      case Hit(p) => if TruthyNumber(p) then p.value else 0.0
    else 0.0
  }

  /** A truthy first price is always the answer; in every other case the answer is 0. */
  lemma CurrentPriceIsFirstTruthyPrice(answers: SearchAnswers)
    ensures var b := FetchCSFloatItems(answers);
            if HasFirstHit(b) && b.items.value[0].Hit? && TruthyNumber(b.items.value[0].price)
            then GetItemCurrentPrice(answers) == b.items.value[0].price.value
            else GetItemCurrentPrice(answers) == 0.0
  {
  }

  /** When both services fail the price is 0. */
  lemma BothFailGiveZero(steam: SearchOutcome)
    requires steam.SearchFailed?
    ensures GetItemCurrentPrice(SearchAnswers(SearchFailed, steam)) == 0.0
  {
  }

  /** A working CSFloat search is never overridden by the Steam answer. */
  lemma SteamIgnoredWhenCSFloatAnswers(cs: SearchOutcome, s1: SearchOutcome, s2: SearchOutcome)
    requires cs.SearchOk?
    ensures GetItemCurrentPrice(SearchAnswers(cs, s1)) == GetItemCurrentPrice(SearchAnswers(cs, s2))
  {
  }
}
