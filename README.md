# cs2investments price ingestion, in Dafny

This project models the price side of the cs2investments app, a tracker for
Counter-Strike 2 skin investments. The modelled code covers four areas.

- **Price ingestion.** The scheduled route (`POST /api/cron/update-prices`) and
  the manual route (`POST /api/manual-update-prices`) read every `cs_items` row.
  For each eligible item they ask the CSFloat listings endpoint for the cheapest
  buy-now listings and record the first listing's price in `item_prices`. The
  scheduled route checks a bearer token and works in slices of five items with
  a one-second pause between slices. The manual route goes one item at a time
  with a ten-second pause.
- **The older stand-alone script.** `scripts/update-prices.ts` writes the current
  price and value back into `investments` and adds `price_history` rows.
- **The library helpers.** These are the CSFloat client (`csfloat.ts`), the market
  search with its Steam fallback (`api.ts`), the latest-price reader
  (`price-service.ts`) and the cents formatter (`utils.ts`).
- **The view logic.** This covers the item table's cells, the add-investment
  dialog's search filter and defaults, and the two investment tables' sorting,
  totals and sort-header state.

## How the model is built

The network, the database, the clock and `Date` are given to the operations as
parameters. They are functions from a position in the run and the request to
the answer.

- `fetch(k, query)` is the CSFloat listings answer for the `k`-th item.
- `insert(k, record)` is the store's answer to the `k`-th insert.
- `search(k, name)` and `update(k, event)` are the script's market search and
  investment update.
- `clock(k)` is the script's `new Date().toISOString()`.
- `today` is the dialog's date.
- `fixed4` is `Number.prototype.toFixed(4)`.

Each route is a `method` with the route's own early returns. Its loop runs over
the items and keeps an invariant that relates the running counters to a
specification function:

- `PriceJob.Outcomes` gives each item's result;
- `PriceJob.TallyOf` gives the counters, error list and insert list those results produce.

The running counters are a `class` (`PriceJob.Results`) whose `ProcessItem`
updates them in place, as the route's `results` object is updated.

The two view components that hold sort state are classes with that state as
fields; their sorted rows are a function of the fields. The dialog's state is
a class whose methods play its effects.

JavaScript semantics are written out where the code depends on them:

- Truthiness is explicit. `def_index` 0, paint index 0 and float bound 0 count
  as missing. An empty `market_hash_name` falls back to `def_name`.
- `undefined` and `null` entries are dropped from query parameters.
- `{...params, limit: 5}` keeps an existing `limit` in its place.
- `String.prototype.includes` is substring search.
- `Array.prototype.sort` with the source's comparators is a stable insertion sort.
- `String.prototype.trim` removes exactly the white space and line terminators of ECMA-262.

Some behaviour is modelled as the code has it rather than as its comments or
names suggest.

- **The first listing is taken.** The routes record `data[0].price` of the
  response sorted by `lowest_price`, not the minimum over the returned listings.
- **Any error while getting the price is a skip.** An error thrown while building the
  query, fetching, or reading the response is swallowed by `getLowestPrice`.
  The item is then counted as skipped, not failed. Only a failed insert counts
  as a failure.
- **An unset secret admits `Bearer undefined`.** With `CRON_SECRET` unset,
  the expected header is the literal text `Bearer undefined`, and a request
  carrying it is authorized (`CronJob.UnsetSecretAdmitsUndefined`).
- **`getAveragePrice` expects a bare array.** It treats the listings answer as an
  array, so a page object `{cursor, data}` (the shape the routes expect) gives
  `null` (`CsFloat.AverageOfPageIsNull`). The routes read `.data`, so a bare
  array there has no listings and is a skip.
- **The script's mismatched columns.** The update script reads `item.name`,
  which the `investments` row type does not declare, so it may search for the
  empty string. It also writes the investment's `id` as the history row's
  `item_id`.
- **The search term is trimmed only for the blankness test.** The dialog filters
  with the untrimmed, lowercased term.

## Model

| member | source | states |
|---|---|---|
| PriceJob.Status | src/app/api/cron/update-prices/route.ts:72-188 | The status is 200 exactly for the "nothing to update" and "completed" answers. |
| PriceJob.BuildRouteQuery | src/app/api/cron/update-prices/route.ts:23-36 | The query built is the two defaults followed by the item's defined parameters and the limit, in that order. |
| PriceJob.RouteQueryParts | src/app/api/cron/update-prices/route.ts:119-125 | The query is `sort_by`, `type`, then each of def_index, paint_index, min_float, max_float and category that is defined, then `limit=5`. |
| PriceJob.RouteQueryDefaults | src/app/api/cron/update-prices/route.ts:27-29 | The query starts with `sort_by=lowest_price` and `type=buy_now`, every other parameter is a number, and the category always appears. |
| PriceJob.RouteQueryLimit | src/app/api/cron/update-prices/route.ts:58 | The query carries exactly one `limit` parameter, and its value is 5. |
| PriceJob.RouteQueryOmitsFalsy | src/app/api/cron/update-prices/route.ts:120-123 | A missing or zero paint index, minimum float or maximum float leaves its parameter out of the query. |
| PriceJob.ItemEntriesLimit | src/app/api/cron/update-prices/route.ts:58 | Adding the limit to the item's parameter object appends it at the end, since the object has no `limit` of its own. |
| PriceJob.LowestPrice | src/app/api/cron/update-prices/route.ts:56-70 | A price comes back exactly when the response is OK, parses as a page and has at least one listing, and it is the first listing's price; every other case gives null. |
| PriceJob.Outcomes | src/app/api/cron/update-prices/route.ts:108-155 | There is one outcome per item, in the item order. |
| PriceJob.Report | src/app/api/cron/update-prices/route.ts:167-176 | The answer is "completed" with the item count as total, and it carries an error list exactly when some error was recorded. |
| PriceJob.SkippedUpFrontIff | src/app/api/cron/update-prices/route.ts:114-117 | An item is skipped without a request exactly when its def_index is missing or 0, or both float bounds are null. |
| PriceJob.FetchFailureIsSkip | src/app/api/cron/update-prices/route.ts:56-70 | For an eligible item, a failed request or an empty page is a skip, not a failure. |
| PriceJob.FirstListingPriceIsTaken | src/app/api/cron/update-prices/route.ts:64-65 | When the first listing's price is inserted without error, the item succeeds with that price in cents. |
| PriceJob.FailureOnlyFromInsert | src/app/api/cron/update-prices/route.ts:138-152 | A failure happens only for an eligible item with a price whose insert returned an error; the message is the item label followed by the insert error. |
| PriceJob.RecordUnits | src/app/api/cron/update-prices/route.ts:129-136 | The inserted row carries the item id, the cents, the dollars (cents divided by 100) and the source `csfloat`. |
| PriceJob.FailureMessageLabel | src/app/api/cron/update-prices/route.ts:151 | Every error message starts with `Item <id> (<def_name>): `. |
| PriceJob.TallyConservation | src/app/api/cron/update-prices/route.ts:142-152 | success + failed + skipped equals the number of items; there is one error per failure and one insert per success or failure. |
| PriceJob.TallyErrorsAreFailures | src/app/api/cron/update-prices/route.ts:149-152 | Every recorded error is the message of some failed item. |
| PriceJob.TallyListsInOrder | src/app/api/cron/update-prices/route.ts:127-152 | The error list is exactly the failed items' messages, and the insert list the records of the items that reached the insert, both in item order. |
| PriceJob.Results.constructor | src/app/api/cron/update-prices/route.ts:97-102 | The counters start at zero with no errors and no inserts. |
| PriceJob.Results.ProcessItem | src/app/api/cron/update-prices/route.ts:111-154 | Processing item `k` yields that item's outcome and advances the counters by exactly that outcome. |
| CronJob.ChunksPartition | src/app/api/cron/update-prices/route.ts:105-109 | There are ceil(n/5) slices, and joined in order they give back the item list. |
| CronJob.ChunkAt | src/app/api/cron/update-prices/route.ts:108-109 | Slice j is `items.slice(5j, 5j + 5)`, and every slice but the last holds five items. |
| CronJob.ChunkExists | src/app/api/cron/update-prices/route.ts:108 | Slice b exists exactly when 5b is below the item count, which is the loop's test. |
| CronJob.SchedulePauses | src/app/api/cron/update-prices/route.ts:159-162 | A run over b slices pauses b - 1 times, and starts and ends with a dispatch. |
| CronJob.ProcessBatch | src/app/api/cron/update-prices/route.ts:111-157 | After a slice, the counters equal those of every item up to the end of that slice. |
| CronJob.RunBatches | src/app/api/cron/update-prices/route.ts:104-163 | The counters equal those of the per-item outcomes; errors and inserts agree up to order; the steps are the slices in order with a one-second pause between consecutive slices. |
| CronJob.Post | src/app/api/cron/update-prices/route.ts:72-188 | A wrong header gets 401 before any read; a load error gets 500 with its message; no rows gets "No items to update"; otherwise "Price update completed" with the total, counters equal to the outcomes', errors present exactly when something failed, and the batch schedule. |
| CronJob.UnsetSecretAdmitsUndefined | src/app/api/cron/update-prices/route.ts:76 | With the secret unset, the header `Bearer undefined` is authorized. |
| CronJob.MissingHeaderRefused | src/app/api/cron/update-prices/route.ts:75-77 | A request without an authorization header is always refused. |
| ManualJob.ManualPauses | src/app/api/manual-update-prices/route.ts:95-140 | The run pauses once per success and once per item found without a price; pauses plus ineligible skips plus failures equal the item count. |
| ManualJob.ManualTraceHandlesInOrder | src/app/api/manual-update-prices/route.ts:95 | Every item is handled, and nothing outside the list is handled. |
| ManualJob.RunSequential | src/app/api/manual-update-prices/route.ts:87-140 | The counters, errors and inserts are exactly those of the per-item outcomes, in order, and the steps are each item followed by its pause when it had one. |
| ManualJob.Post | src/app/api/manual-update-prices/route.ts:65-164 | Never refuses; a load error gets 500 with its message; no rows gets "No items to update"; otherwise "Manual price update completed" with exactly the outcomes' counters, errors and inserts. |
| CsFloat.DefinedParams | src/lib/csfloat.ts:38-42 | There are never more parameters than entries. |
| CsFloat.DefinedParamsMembers | src/lib/csfloat.ts:38-42 | Every defined entry becomes a parameter, and every parameter comes from a defined entry. |
| CsFloat.DefinedParamsAppend | src/lib/csfloat.ts:38-42 | The parameters of two entry lists joined are the two parameter lists joined, in order. |
| CsFloat.AppendDefined | src/lib/csfloat.ts:38-42 | The loop appends exactly the defined entries, in order, to the parameters already there. |
| CsFloat.WithLimitAppends | src/lib/csfloat.ts:75 | Without a `limit` entry, the override appends `limit` at the end. |
| CsFloat.WithLimitMembers | src/lib/csfloat.ts:75 | The override keeps every other property and adds nothing but the new limit. |
| CsFloat.WithLimitSingleLimit | src/lib/csfloat.ts:75 | Whatever limit the caller passed, the query has one `limit` parameter, and it has the new value. |
| CsFloat.ListingsResponse | src/lib/csfloat.ts:53-66 | The body is returned exactly for a 2xx response that parses; another status raises "CSFloat API returned <status>: <text>"; a transport error is re-raised. |
| CsFloat.FetchListings | src/lib/csfloat.ts:32-67 | The query sent is exactly the defined parameters, and the result is the interpreted response to that query. |
| CsFloat.FetchListingsAddsNoDefaults | src/lib/csfloat.ts:38-42 | Unlike the routes' copy, the library adds no parameter the caller did not give. |
| CsFloat.AveragePrice | src/lib/csfloat.ts:72-88 | A value comes back exactly when the response is an OK, non-empty array. |
| CsFloat.MeanWithinRange | src/lib/csfloat.ts:82-83 | The mean of the listing prices lies between their minimum and maximum. |
| CsFloat.AveragePriceWithinRange | src/lib/csfloat.ts:72-83 | For an OK array of listings, the average is present and lies between the lowest and highest price. |
| CsFloat.AverageOfPageIsNull | src/lib/csfloat.ts:77-87 | A page-shaped answer `{cursor, data}` gives null. |
| MarketApi.FetchSteamMarketItems | src/lib/api.ts:26-41 | A successful search answers its body; a failed one answers `{ items: [] }`. |
| MarketApi.FetchCSFloatItems | src/lib/api.ts:4-23 | The CSFloat answer is used when the search succeeds; otherwise the Steam fallback's. |
| MarketApi.GetItemCurrentPrice | src/lib/api.ts:44-55 | The price is 0 or the first hit's price. |
| MarketApi.CurrentPriceIsFirstTruthyPrice | src/lib/api.ts:47-50 | The price is the first hit's price when the list is non-empty and that price is truthy, and 0 in every other case (null body, missing list, null hit, zero or missing price). |
| MarketApi.BothFailGiveZero | src/lib/api.ts:18-22 | When both searches fail, the price is 0. |
| MarketApi.SteamIgnoredWhenCSFloatAnswers | src/lib/api.ts:17 | When CSFloat answers, the Steam search has no effect on the price. |
| LegacyScript.UpdatePrices | scripts/update-prices.ts:4-73 | A load error or a null list writes nothing; otherwise the writes and waits are those of every investment in list order. |
| LegacyScript.ItemEventsShape | scripts/update-prices.ts:65-66 | Each investment's events end with its one half-second pause, whatever happened before. |
| LegacyScript.OnePausePerInvestment | scripts/update-prices.ts:25-67 | The run pauses exactly once per investment. |
| LegacyScript.ItemDecisions | scripts/update-prices.ts:28-57 | A non-positive price writes nothing; a positive price writes the price and price times quantity; a history row is written exactly when the price is positive and the update succeeded. |
| LegacyScript.HistoryFollowsSuccessfulUpdate | scripts/update-prices.ts:30-57 | Every update carries a positive price, and every history row follows an accepted update of the same id at the same price. |
| PriceService.Project | src/lib/price-service.ts:34-38 | The projection keeps the cents, the time and the source. |
| PriceService.GetItemPrice | src/lib/price-service.ts:20-43 | A price comes back exactly when the `single()` query returned one row, and it is that row's data. |
| PriceService.GetItemPrices | src/lib/price-service.ts:48-89 | The map built by the two loops is the specified map, and every requested id is a key. |
| PriceService.AllNullShape | src/lib/price-service.ts:64-67 | The initial map has exactly the requested ids as keys, all null. |
| PriceService.FillRowsKeys | src/lib/price-service.ts:70-76 | Filling adds exactly the returned rows' ids to the keys. |
| PriceService.FillRowsUntouched | src/lib/price-service.ts:70-76 | An id no row names keeps its value. |
| PriceService.FillRowsLastWins | src/lib/price-service.ts:70-76 | An id gets the data of the last row that names it. |
| PriceService.KeysCoverRequested | src/lib/price-service.ts:48-89 | Every requested id is a key of the answer, on success and on error. |
| PriceService.ErrorGivesAllNull | src/lib/price-service.ts:79-88 | On a store error, the answer has exactly the requested ids, all null. |
| PriceService.MissingRowGivesNull | src/lib/price-service.ts:64-76 | A requested id with no returned row maps to null. |
| PriceService.ReturnedRowWins | src/lib/price-service.ts:70-76 | An id maps to the data of the last returned row naming it, even if it was not requested. |
| PriceService.HistoryOf | src/lib/price-service.ts:94-121 | An error or null data gives the empty list; otherwise each row, projected, in the store's order. |
| PriceService.ProjectAll | src/lib/price-service.ts:112-116 | The projection keeps the length, and each entry is its row's projection. |
| Currency.TwoDigits | src/lib/utils.ts:15 | The two characters are digits whose value is the given number below 100. |
| Currency.FormatCurrency | src/lib/utils.ts:6-16 | A missing value gives "N/A"; an amount gives `$`, then a minus sign exactly when it is negative, then the dollars, a point and two digits. |
| Currency.FormatRoundTrip | src/lib/utils.ts:12-15 | Reading the formatted text back gives the amount in cents. |
| Currency.FormatInjective | src/lib/utils.ts:12-15 | Different amounts format differently. |
| Currency.FormatNeverNA | src/lib/utils.ts:7-9 | An amount never formats as "N/A". |
| Currency.NegativeExample | src/lib/utils.ts:12-15 | -150 cents formats as `$-1.50`. |
| Currency.WholeDollarsExample | src/lib/utils.ts:12-15 | 1000 cents formats as `$10.00`. |
| ItemList.GetCategoryLabel | src/components/items/item-list.tsx:119-127 | Categories 0 to 3 are Weapon, Knife, Glove and Other, and every other number is Unknown. |
| ItemList.CategoryLabelsDistinct | src/components/items/item-list.tsx:119-127 | The four known categories have four different labels. |
| ItemList.PaintCell | src/components/items/item-list.tsx:88-94 | A truthy paint index shows the index and a space, then `(name)` exactly when the paint name is truthy; otherwise a dash. |
| ItemList.FloatRangeCell | src/components/items/item-list.tsx:97-103 | At least one bound shows `min - max`, each side its four-digit text; no bound shows a dash. |
| ItemList.MissingBoundShowsQuestionMark | src/components/items/item-list.tsx:97-103 | A missing minimum gives `? - max`, a missing maximum `min - ?`, both present `min - max`, and neither a dash. |
| ItemList.ZeroBoundIsShown | src/components/items/item-list.tsx:97-99 | A bound of 0 is not missing here (the test is `!== null`): the cell shows its rendering. |
| ItemList.MarketHashCell | src/components/items/item-list.tsx:109 | The market hash name is shown exactly when truthy; otherwise a dash. |
| ItemList.MarketHashCellIsDisplayName | src/components/items/item-list.tsx:109 | A shown name is the item's display name; a dash appears exactly when the display name falls back to `def_name`. |
| Text.ToLower | src/components/investments/add-investment-modal.tsx:50-53 | Lowercasing keeps the length and folds each character on its own (ASCII letters only; see below). |
| Text.Includes | src/components/investments/add-investment-modal.tsx:54 | The answer is true exactly when the term occurs at some position of the name. |
| AddInvestment.Filter | src/components/investments/add-investment-modal.tsx:51-56 | An item is kept exactly when it is in the list and its lowercased display name contains the lowercased term. |
| AddInvestment.FilterAppend | src/components/investments/add-investment-modal.tsx:52 | Filtering keeps the list order. |
| AddInvestment.FilterItems | src/components/investments/add-investment-modal.tsx:46-58 | A blank term shows every item; any other term filters by it. |
| AddInvestment.CaseInsensitiveSearch | src/components/investments/add-investment-modal.tsx:50 | Lowercasing the term first does not change the filtered list. |
| AddInvestment.FilterSameKey | src/components/investments/add-investment-modal.tsx:50-54 | Two terms that lowercase alike filter alike. |
| AddInvestment.OwnNameFindsItem | src/components/investments/add-investment-modal.tsx:46-56 | A listed item is found by the empty term and by its own display name. |
| AddInvestment.FormDefaults | src/components/investments/add-investment-modal.tsx:33-44 | With initial data the form is that data; otherwise the first item's id (or 0), today, price 0 and quantity 1. |
| AddInvestment.AddInvestmentModal.constructor | src/components/investments/add-investment-modal.tsx:23-44 | A fresh dialog has an empty term, shows every item, and its form is the defaults. |
| AddInvestment.AddInvestmentModal.SetSearchTerm | src/components/investments/add-investment-modal.tsx:46-58 | Typing sets the term and refilters; the items, initial data and form are unchanged. |
| AddInvestment.AddInvestmentModal.SetProps | src/components/investments/add-investment-modal.tsx:33-58 | New props reset the form to the defaults and refilter under the current term. |
| AddInvestment.AddInvestmentModal.Submit | src/components/investments/add-investment-modal.tsx:71-75 | Submitting hands the form to the owner, then closes. |
| Ordering.LexCompare | src/components/investments/investment-list.tsx:25 | The comparison is -1, 0 or 1, and 0 exactly for equal strings. |
| Ordering.LexAntisymmetric | src/components/investments/investment-list.tsx:24-26 | Swapping the strings negates the comparison. |
| Ordering.LexTransitive | src/components/investments/investment-list.tsx:24-26 | The string order is transitive. |
| Ordering.Compare | src/components/investments/investment-list.tsx:29-44 | The comparison is -1, 0 or 1; values of different kinds are equal; numbers compare by size. |
| Ordering.CmpAntisymmetric | src/components/investments/investment-list.tsx:19-45 | Swapping the rows negates the directed comparison. |
| Ordering.CmpTransitive | src/components/investments/investment-list.tsx:19-45 | For values of one kind, the directed comparison is transitive in both directions. |
| Ordering.Insert | src/components/investments/investment-list.tsx:19 | Inserting one row adds exactly that row. |
| Ordering.SortBy | src/components/investments/investment-list.tsx:19 | Sorting a copy keeps exactly the same rows. |
| Ordering.InsertSorted | src/components/investments/investment-list.tsx:19-45 | Inserting into a sorted list of one kind keeps it sorted. |
| Ordering.SortBySorted | src/components/investments/investment-list.tsx:19-45 | Sorting rows whose key values share one kind gives a list sorted under the comparator. |
| Ordering.SumPermutation | src/components/investments/investment-list.tsx:185 | A sum does not depend on the order of the rows. |
| InvestmentList.SourceCompareSign | src/components/investments/investment-list.tsx:19-45 | The row comparator is negative, zero or positive exactly when the directed key comparison is. |
| InvestmentList.SortedRowsAreOrderedPermutation | src/components/investments/investment-list.tsx:19-45 | The shown rows are the given rows, reordered so that the sort key never decreases in the chosen direction. |
| InvestmentList.FooterMatchesShownRows | src/components/investments/investment-list.tsx:115-185 | The footer total over the unsorted input is the sum of the shown rows' totals. |
| InvestmentList.NextConfig | src/components/investments/investment-list.tsx:47-53 | Clicking a header sorts by it, descending exactly when it was already the ascending key. |
| InvestmentList.NextConfigTwice | src/components/investments/investment-list.tsx:47-53 | Two clicks on the current key give back the current order, and two on another key sort it descending. |
| InvestmentList.InvestmentListView.constructor | src/components/investments/investment-list.tsx:11-17 | The list starts sorted by purchase date, descending. |
| InvestmentList.InvestmentListView.HandleSort | src/components/investments/investment-list.tsx:47-53 | A click moves the sort state to the next configuration. |
| InvestmentList.InvestmentListView.Displayed | src/components/investments/investment-list.tsx:19-45 | The shown rows are a reordering of the given rows. |
| InvestmentTable.StrLessIsLex | src/components/InvestmentTable.tsx:27-28 | The `<` on strings is the lexicographic order on characters (code points). |
| InvestmentTable.TableCompare | src/components/InvestmentTable.tsx:26-30 | The comparator answers -1, 0 or 1. |
| InvestmentTable.TableCompareIsCmp | src/components/InvestmentTable.tsx:26-30 | The `<`/`>` comparator is the directed key comparison. |
| InvestmentTable.SortedItemsOrdered | src/components/InvestmentTable.tsx:26-30 | The shown rows are the given rows, reordered so that no row compares after its successor. |
| InvestmentTable.TotalProfitIsSumOfProfits | src/components/InvestmentTable.tsx:40-42 | Total value minus total investment is the sum of the row profits. |
| InvestmentTable.TotalsIgnoreSort | src/components/InvestmentTable.tsx:32-38 | The totals over the unsorted input equal the totals over the shown rows. |
| InvestmentTable.RowClass | src/components/InvestmentTable.tsx:44-47 | A row is green exactly when its current value is at least its investment, and red otherwise. |
| InvestmentTable.InvestmentTableView.constructor | src/components/InvestmentTable.tsx:14-15 | The table starts sorted by purchase date, descending. |
| InvestmentTable.InvestmentTableView.HandleSort | src/components/InvestmentTable.tsx:17-24 | Clicking the current field flips the direction; clicking another selects it ascending. |
| InvestmentTable.InvestmentTableView.Displayed | src/components/InvestmentTable.tsx:26 | The shown rows are a reordering of the given rows. |

## Left out

- HTTP, the database, environment variables, the clock and timers are parameters, as described above. The waits are recorded as `Pause` steps, not taken.
- The API key header on CSFloat requests (`Authorization`) is left out; it does not change what the code does with the answer.
- Logging (`console.log`, `console.error`, `console.warn`) is left out; it produces no result.
- CronJob.RunBatches: the five items of a slice run concurrently in the program. The model runs them in list order, so the counters are stated exactly, but the error list and the inserts only up to order (as multisets). The order of completion is up to the network.
- CronJob.Post: states the error list and the inserts up to order, for the same reason.
- Floating point is modelled with reals:
  - `price / 100` and the listings mean are exact;
  - `toFixed(4)` of the float bounds is a parameter;
  - `FormatCurrency` models `(cents / 100).toFixed(2)` for whole cents only. Its digits are those of the source while the magnitude of the cents is below 2^52, where the double nearest `cents / 100` is within 0.005 of it. Beyond that the double's rounding error can change the last digit, and from 1e21 up `toFixed` switches to exponent form; neither is modelled, nor is rounding of a fractional cent.
- `localeCompare` is modelled as code-point order. Locale collation is outside what the model can state.
- InvestmentTable.StrLessIsLex: JavaScript `<` compares UTF-16 code units, while a Dafny `char` is a code point. The two orders differ only when a character above U+FFFF meets one in U+E000 to U+FFFF.
- Array.prototype.sort is stable, and the insertion sort used here is stable as well. Stability itself is not stated.
- Ordering.SortBySorted: proves sortedness for keys whose values all have one kind (all numbers or all strings). For mixed kinds the source's comparator is not a consistent order, and the engine's result is implementation-defined.
- `handleChange` of the add-investment dialog is left out. It parses inputs with `parseFloat`, so a number field can hold `NaN`, and the select stores its value as a string. Neither is a real number or a JavaScript value the model has.
- AddInvestment.AddInvestmentModal.SetProps: runs both effects on every props change. React runs each effect only when one of its own dependencies changed by reference.
- `formatPrice` in `src/lib/api.ts` relies on `Intl.NumberFormat`, whose output the model does not have.
- `getLastPriceUpdate` in `src/lib/price-service.ts` is left out. It is one `single()` query returning its only field, as `GetItemPrice` does.
- The 30-day window of `getItemPriceHistory` (the `startDate` arithmetic and the `gte` filter) is done by the store. The store's answer is a parameter of `PriceService.HistoryOf`.
- The item table's image cell and the investment tables' date and price cells are markup only.
- The ROI percentage (`Math.round` of a float ratio) in `src/components/InvestmentTable.tsx` is floating point.
- The `GET` handler of the cron route returns a fixed JSON description of the endpoint (its message, schedule and method). It reads no state and its answer is a constant, so it is left out.
- The script's history insert is awaited and its error ignored, so the model records only that it was attempted.
- Text.ToLower: folds only the ASCII letters A-Z. JavaScript `toLowerCase` folds every Unicode letter (`É` to `é`), so for non-ASCII names `AddInvestment.Filter` and `AddInvestment.CaseInsensitiveSearch` are stated for ASCII folding only.
