# Real-time crypto price tracker: a verified model of its state and view logic

This project models the logic between the market-data request and the markup of a React/Redux
crypto price tracker, and proves properties of it:

- **the crypto slice of the store**: the favorites list, kept durably under the key
  `cryptoFavorites`, and its reducers. These are `toggleFavorite`, `setCurrentPage`,
  `setItemsPerPage` and the pending, fulfilled and rejected cases of a fetch. The slice also
  holds the normaliser from provider records to assets, the thunk's outcome and the
  `selectAssetById` selector;
- **the table's derived view**: the `requestSort` rule, the sort comparator and its
  null-last rule, a sort of a copy of the snapshot, the conjunctive filter, the handlers
  that change the table's local state and the choice between spinner, error panel and table;
- **the refresh scheduler** `CryptoApiService`: idempotent `start` and `stop`, and a tick of
  the armed timer that re-reads the pagination;
- **the error panel**: the ordered substring classifier and the retry button's fixed fetch;
- **the row formatters**: the T/B/M/K bracket choice, the "N/A" rules, the fraction-digit
  choice, the arrow of a percent change and the favorite star.

Files:
- `common.dfy`: `Option` and `Result`.
- `seqs.dfy`: filtering and order-preserving subsequences.
- `text.dfy`: ASCII case mapping and substring search.
- `assets.dfy`: records, the normaliser and the fetch outcome.
- `favorites_codec.dfy`: the durable favorites text.
- `crypto_slice.dfy`: the class `CryptoStore`.
- `crypto_table.dfy`: the sort, the filter and the class `TableView`.
- `crypto_service.dfy`: the class `CryptoApiService`.
- `error_display.dfy`: the error classifier and retry.
- `crypto_row.dfy`: the row formatters.

Nondeterminism and foreign calls become parameters:
- The time stamp of `updateLastUpdated` and of the fulfilled case is an argument.
- `parseFloat` is a `NumberParser` (`None` stands for `NaN`).
- `toFixed(2)` is a `real -> string` argument.
- The HTTP exchange is an `HttpResult` value.
- The interval handle is an argument of `Start`.
- A tick of the timer is an explicit call to `Tick`.

Fetches are modelled in three places:
- `CryptoApiService.Dispatch` appends the requested `(page, perPage)` to the service's log
  and runs the store's pending case at once.
- `HandleRetry` runs the pending case and returns its fixed request; it keeps no log.
- `TableView` appends each request its pagination effect makes to its own `requests` log.
  It does not touch the store.

In every case the fetch settles later, when the caller calls `CryptoStore.Settle`.

Two facts about the code shape the model:
- The normaliser maps every provider record to an asset, one for one, in order. Records
  without an id are not dropped.
- The table renders the whole filtered list. Pagination exists only as the `(page,
  perPage)` pair sent to the fetch; there is no client-side page window.

## Model

| member | source | states |
|---|---|---|
| Seqs.Filter | src/features/crypto/cryptoSlice.js:55 | `Array.prototype.filter`: no longer than the input, and every kept element satisfies the test |
| Seqs.FilterIsSubseq | src/Components/CryptoTable.jsx:92 | the kept elements are an order-preserving subsequence of the input |
| Seqs.FilterCounts | src/Components/CryptoTable.jsx:92 | a value that passes the test is kept as often as it occurs; a value that fails it does not occur |
| Text.ToUpper | src/features/crypto/cryptoSlice.js:83 | same length; a-z become A-Z and every other character is unchanged |
| Text.ToLower | src/Components/CryptoTable.jsx:113-114 | same length; A-Z become a-z and every other character is unchanged |
| Text.LowerOfUpper | src/Components/CryptoTable.jsx:113-114 | lower-casing after upper-casing is lower-casing |
| Text.Contains | src/Components/ErrorDisplay.jsx:33-37 | `includes`: true exactly when some position of the text starts a copy of the substring |
| Assets.Normalize | src/features/crypto/cryptoSlice.js:79-94 | each asset field comes from the matching record field; the symbol is upper-cased; a missing sparkline becomes the empty sequence |
| Assets.NormalizeAll | src/features/crypto/cryptoSlice.js:79 | one asset per record, same length, asset i is the normalisation of record i |
| Assets.NormalizedSymbolSearch | src/features/crypto/cryptoSlice.js:83 | upper-casing the symbol does not change what a lower-cased search compares against |
| Assets.RequestOf | src/features/crypto/cryptoSlice.js:5 | a missing page defaults to 1 and a missing page size to 5; given values are used as they are |
| Assets.ThunkOutcome | src/features/crypto/cryptoSlice.js:11-19 | fulfilled exactly for an OK response with a decoded body, carrying the requested page and size; a non-OK status rejects with "Network response was not ok"; any other failure rejects with its own message |
| FavoritesCodec.Encode | src/features/crypto/cryptoSlice.js:60 | the stored text of a favorites list is a bracketed array |
| FavoritesCodec.EscapeChar | src/features/crypto/cryptoSlice.js:60 | a character other than a quote, a backslash or a control character is written as itself; those three kinds are written as an escape starting with a backslash (`\b`, `\t`, `\n`, `\f`, `\r` or `\u00` and two hex digits for control characters) |
| FavoritesCodec.Parse | src/features/crypto/cryptoSlice.js:28 | an accepted text starts with `[` and ends with `]`, and it is the empty list exactly when the text is `[]` |
| FavoritesCodec.ParseEncode | src/features/crypto/cryptoSlice.js:28 | parsing the encoding of any list of ids gives back exactly that list |
| FavoritesCodec.LoadFavorites | src/features/crypto/cryptoSlice.js:25-33 | a missing key, empty text or unparsable text all give the empty list |
| FavoritesCodec.LoadAfterSave | src/features/crypto/cryptoSlice.js:60 | after the list is written under `cryptoFavorites`, loading gives back that list |
| FavoritesCodec.LoadsStoredExample | src/features/crypto/cryptoSlice.js:28 | the stored text `["bitcoin","ethereum"]` loads as those two ids |
| FavoritesCodec.CorruptLoadsEmpty | src/features/crypto/cryptoSlice.js:29-31 | stored text that is not valid loads as the empty list |
| FavoritesCodec.RawControlLoadsEmpty | src/features/crypto/cryptoSlice.js:28-31 | stored text with a raw line feed inside an id is not valid and loads as the empty list |
| FavoritesCodec.EncodePlainPair | src/features/crypto/cryptoSlice.js:60 | two ids without quotes, backslashes or control characters are stored verbatim, each between quotes, comma-separated inside brackets |
| CryptoSlice.Toggled | src/features/crypto/cryptoSlice.js:54-58 | a present id is removed entirely and the list shrinks; an absent id is appended at the end of the otherwise unchanged list |
| CryptoSlice.ToggleRemoves | src/features/crypto/cryptoSlice.js:55 | removing an id keeps every other id, in its original order and with its multiplicity |
| CryptoSlice.ToggleTwiceMembership | src/features/crypto/cryptoSlice.js:52-61 | toggling the same id twice restores the membership of every id |
| CryptoSlice.ToggleTwiceAbsent | src/features/crypto/cryptoSlice.js:54-58 | adding an absent id and toggling it again gives back exactly the original list |
| CryptoSlice.SameSizeFilterKeepsAll | src/features/crypto/cryptoSlice.js:55 | a filter that keeps as many elements as it was given rejected none, so removing a present id always shortens the list |
| CryptoSlice.AssetById | src/features/crypto/cryptoSlice.js:113 | the first asset with the id, or none exactly when no asset has it |
| CryptoSlice.CryptoStore.constructor | src/features/crypto/cryptoSlice.js:37-47 | the initial state: no assets, not loading, no error or time stamp, page 1 of size 5, one total page, more to come, favorites loaded from storage |
| CryptoSlice.CryptoStore.UpdateLastUpdated | src/features/crypto/cryptoSlice.js:49-51 | only the time stamp changes |
| CryptoSlice.CryptoStore.ToggleFavorite | src/features/crypto/cryptoSlice.js:52-61 | the list becomes `Toggled` of the old list; storage holds its encoding under `cryptoFavorites`; stored and in-memory favorites stay in agreement; nothing else changes |
| CryptoSlice.CryptoStore.SetCurrentPage | src/features/crypto/cryptoSlice.js:62-64 | the page is set without clamping; nothing else changes |
| CryptoSlice.CryptoStore.SetItemsPerPage | src/features/crypto/cryptoSlice.js:65-68 | the page size is set and the page returns to 1; nothing else changes |
| CryptoSlice.CryptoStore.FetchPending | src/features/crypto/cryptoSlice.js:72-74 | loading is set; assets, error, time stamp and favorites are kept |
| CryptoSlice.CryptoStore.FetchFulfilled | src/features/crypto/cryptoSlice.js:75-101 | not loading, no error, new time stamp; assets are the normalised batch; more pages exactly when the batch is full; pagination follows the request; favorites are kept |
| CryptoSlice.CryptoStore.FetchRejected | src/features/crypto/cryptoSlice.js:102-105 | not loading and the error message recorded; assets, time stamp and favorites are kept |
| CryptoSlice.CryptoStore.Settle | src/features/crypto/cryptoSlice.js:70-105 | not loading afterwards. A fulfilled fetch clears the error, stamps the time, stores the normalised batch, takes the request's pagination and sets more pages exactly when the batch is full. A rejected fetch records its message and keeps assets, time stamp, pagination and more-pages. Both keep favorites, storage and the total page count |
| CryptoSlice.FullFirstPage | src/features/crypto/cryptoSlice.js:98 | a first fetch of page 1 returning 5 records leaves five assets, no error, and more pages to come |
| CryptoSlice.FailedRefreshKeepsSnapshot | src/features/crypto/cryptoSlice.js:102-105 | a failed refresh after a good one keeps the earlier snapshot and records the error |
| CryptoTable.NextSortConfig | src/Components/CryptoTable.jsx:58-64 | the new key is the clicked one; the direction is descending exactly when that key was already ascending |
| CryptoTable.RequestSortCycles | src/Components/CryptoTable.jsx:58-64 | repeated clicks on one header alternate between two configurations |
| CryptoTable.SortIndicator | src/Components/CryptoTable.jsx:143-146 | "↕" for another column, "↑" or "↓" for the sorted column's direction |
| CryptoTable.KeyValue | src/Components/CryptoTable.jsx:76 | only the name column holds strings |
| CryptoTable.LexCompare | src/Components/CryptoTable.jsx:78-79 | the string order gives -1, 0 or 1, and 0 exactly for equal strings |
| CryptoTable.LexAntisymmetric | src/Components/CryptoTable.jsx:78-79 | swapping the strings negates the comparison |
| CryptoTable.LexTransitive | src/Components/CryptoTable.jsx:78-79 | the string order is transitive |
| CryptoTable.Compare | src/Components/CryptoTable.jsx:70-85 | positive when the left value is null; negative when only the right one is; for two non-null values, non-positive exactly when they are in the column's order for the direction |
| CryptoTable.CompareNullLast | src/Components/CryptoTable.jsx:72-73 | when exactly one value is null, the null one goes last, in either direction |
| CryptoTable.CompareDescNegatesAsc | src/Components/CryptoTable.jsx:77-83 | for non-null values the descending comparison is the ascending one negated |
| CryptoTable.AscDescReversed | src/Components/CryptoTable.jsx:81-83 | on a numeric column, descending order is ascending order read backwards |
| CryptoTable.CompareNonPositive | src/Components/CryptoTable.jsx:70-85 | a non-positive comparison means the pair is in the promised order |
| CryptoTable.ComparePositive | src/Components/CryptoTable.jsx:70-85 | a positive comparison means the swapped pair is in the promised order |
| CryptoTable.InOrderTransitive | src/Components/CryptoTable.jsx:70-85 | the promised order is transitive |
| CryptoTable.SortedAssets | src/Components/CryptoTable.jsx:67-88 | the sorted copy is a permutation of the snapshot, in order by the column (nulls last); without a key it is the snapshot itself |
| CryptoTable.InsertLast | src/Components/CryptoTable.jsx:70 | one step of the in-place sort extends the sorted prefix by one element and permutes the array |
| CryptoTable.SearchMatches | src/Components/CryptoTable.jsx:112-114 | the empty term is found in every asset; a found term is no longer than the name or the symbol |
| CryptoTable.SearchIgnoresCase | src/Components/CryptoTable.jsx:113-114 | upper-casing the term does not change whether an asset is found |
| CryptoTable.Matches | src/Components/CryptoTable.jsx:92-118 | with favorites-only off and every input empty an asset is kept; a kept asset is a favorite when favorites-only is on, and matches the search when a term is given |
| CryptoTable.FilteredAssets | src/Components/CryptoTable.jsx:91-120 | every kept asset passes each active test: favorite, at least the minimum price, at most the maximum price, at least the minimum 24h change (null counts as 0), and matching the search |
| CryptoTable.FilteredExactly | src/Components/CryptoTable.jsx:92-119 | the filtered list is an order-preserving subsequence holding exactly the matching assets |
| CryptoTable.NoFiltersKeepAll | src/Components/CryptoTable.jsx:99-118 | with every input empty and favorites-only off, nothing is removed |
| CryptoTable.SearchExample | src/Components/CryptoTable.jsx:112-114 | the term "btc" finds an asset whose symbol is "BTC" |
| CryptoTable.SearchFindsName | src/Components/CryptoTable.jsx:113 | an asset whose name contains the term, in any case, is found |
| CryptoTable.SubseqSorted | src/Components/CryptoTable.jsx:92 | filtering a sorted list leaves it sorted |
| CryptoTable.DerivedView | src/Components/CryptoTable.jsx:67-120 | the rendered rows are exactly the matching assets of the snapshot, each as often as in the snapshot, in column order, no more rows than assets |
| CryptoTable.ScreenOf | src/Components/CryptoTable.jsx:148-162 | the spinner exactly while the first batch loads; otherwise the error panel exactly for a non-empty error, showing that error |
| CryptoTable.WithField | src/Components/CryptoTable.jsx:123-129 | one named filter input is replaced and the other three are kept |
| CryptoTable.TableView.constructor | src/Components/CryptoTable.jsx:23-49 | initial UI state: favorites-only off, sorted by rank ascending, page 1 of size 5, empty filters; the mount effect fetches page 1 of size 5 |
| CryptoTable.TableView.HandlePageChange | src/Components/CryptoTable.jsx:36-38 | the page is set; the effect fetches the new page when it changed |
| CryptoTable.TableView.PreviousPage | src/Components/CryptoTable.jsx:350-351 | the previous page with a fetch for it; on page 1 no change and no fetch; page size, filters, favorites-only and sort kept |
| CryptoTable.TableView.NextPage | src/Components/CryptoTable.jsx:360 | always one page further, with a fetch for it; page size, filters, favorites-only and sort kept |
| CryptoTable.TableView.HandleItemsPerPageChange | src/Components/CryptoTable.jsx:41-44 | the new size and page 1; the effect fetches when either changed |
| CryptoTable.TableView.RequestSort | src/Components/CryptoTable.jsx:58-64 | the sort configuration advances by `NextSortConfig`; nothing else changes |
| CryptoTable.TableView.HandleFilterChange | src/Components/CryptoTable.jsx:123-129 | one filter input changes; nothing else changes |
| CryptoTable.TableView.ToggleShowOnlyFavorites | src/Components/CryptoTable.jsx:176 | favorites-only flips; nothing else changes |
| CryptoTable.TableView.ResetFilters | src/Components/CryptoTable.jsx:132-140 | all four inputs empty and favorites-only off; sort and pagination kept |
| CryptoTable.TableView.Rows | src/Components/CryptoTable.jsx:316-318 | the rendered rows under the current UI state are exactly the matching assets, each as often as in the snapshot, in order, no more rows than assets |
| CryptoTable.ResetShowsEverything | src/Components/CryptoTable.jsx:132-140 | after a reset every asset of the snapshot is shown |
| CryptoService.CryptoApiService.constructor | src/services/cryptoService.js:4-8 | stopped, no timer, nothing dispatched |
| CryptoService.CryptoApiService.CurrentRequest | src/services/cryptoService.js:14-15 | the request is the store's pagination at the time of the call |
| CryptoService.CryptoApiService.Dispatch | src/services/cryptoService.js:18 | the request is logged and the pending case runs: the store is loading, and every other store field is kept; the timer is kept |
| CryptoService.CryptoApiService.Start | src/services/cryptoService.js:10-32 | while running, nothing changes; otherwise exactly one fetch of the current pagination, the timer armed, running. The store only starts loading; every other store field is kept |
| CryptoService.CryptoApiService.Tick | src/services/cryptoService.js:21-27 | an armed timer fetches the pagination the store holds at tick time, and the store only starts loading; a cleared one does nothing |
| CryptoService.CryptoApiService.Stop | src/services/cryptoService.js:34-42 | afterwards stopped with no timer, whether or not it was running; nothing is dispatched |
| CryptoService.TickFollowsPagination | src/services/cryptoService.js:21-27 | a page change between start and a tick is honoured by the tick without a restart |
| CryptoService.NoTicksAfterStop | src/services/cryptoService.js:37-39 | after stop, ticks dispatch nothing |
| ErrorDisplay.ErrorMessage | src/Components/ErrorDisplay.jsx:32-42 | connection-lost exactly for text containing "Network"; otherwise rate-limit exactly for "429" or "too many"; otherwise authentication exactly for "unauthorized" or "401"; otherwise exactly "Unexpected error: ", the original text, then ". Our crypto-gnomes are working on it!" |
| ErrorDisplay.NotOkIsConnectionLost | src/features/crypto/cryptoSlice.js:11-12 | every non-OK response, whatever its body, is shown as a lost connection |
| ErrorDisplay.RejectedNotOkShowsConnectionLost | src/Components/ErrorDisplay.jsx:33-34 | a non-OK fetch settled into the store is displayed as a lost connection |
| ErrorDisplay.HandleRetry | src/Components/ErrorDisplay.jsx:23-29 | retry requests page 1 with 5 per page whatever the pagination; the pending case runs, so the store is loading and every other store field is kept |
| CryptoRow.Bracket.Scale | src/Components/CryptoRow.jsx:17-29 | every bracket's divisor is at least 1 |
| CryptoRow.LargeNumber | src/Components/CryptoRow.jsx:16-30 | the first bracket the number reaches (T from 1e12, B from 1e9, M from 1e6, K from 1e3, none below), with scaled value × scale = the number |
| CryptoRow.LargeNumberScaledRange | src/Components/CryptoRow.jsx:17-28 | from a thousand up, the scaled value is at least 1 and, below the trillions, under 1000 |
| CryptoRow.LargeNumberMonotone | src/Components/CryptoRow.jsx:16-30 | a larger number never gets a smaller bracket |
| CryptoRow.FormatLargeNumber | src/Components/CryptoRow.jsx:16-30 | "$", the scaled digits, then the bracket's suffix |
| CryptoRow.Supply | src/Components/CryptoRow.jsx:32-45 | "N/A" exactly for a null or zero supply; otherwise B from 1e9, no T bracket, scaled value × scale = the supply, the given symbol |
| CryptoRow.SupplyMatchesLargeNumber | src/Components/CryptoRow.jsx:35-44 | below a billion the supply brackets agree with the market-value brackets |
| CryptoRow.FormatSupply | src/Components/CryptoRow.jsx:32-45 | "N/A" for a falsy supply; otherwise the digits of the scaled amount, the bracket's suffix, a space and the symbol, so the text ends with a space and the symbol |
| CryptoRow.ShowsMaxSupply | src/Components/CryptoRow.jsx:123 | the max-supply line appears exactly for a non-null, non-zero maximum |
| CryptoRow.PriceFractionDigits | src/Components/CryptoRow.jsx:11-12 | four to six fraction digits below one dollar, exactly two otherwise |
| CryptoRow.RenderPercentChange | src/Components/CryptoRow.jsx:52-63 | "N/A" exactly for null; otherwise up, "▲" and green exactly for a non-negative value, "▼" and red for a negative one, and a non-negative magnitude |
| CryptoRow.PercentChangeRecoversValue | src/Components/CryptoRow.jsx:55-60 | the arrow and the shown magnitude determine the value exactly |
| CryptoRow.IsFavorite | src/Components/CryptoRow.jsx:50 | a row is starred exactly when its id occurs in the favorites list |

## Left out

- The HTTP request and JSON decoding of the response: the response is an input value.
- Real `localStorage` failures, such as quota errors or unavailable storage: storage is a map field.
- `JSON.parse` and `JSON.stringify` are modelled on a subset of JSON: an array of strings with no whitespace between tokens. Inside a string, `"` and `\` are escaped with a backslash, and control characters are escaped as `JSON.stringify` escapes them. A raw control character is rejected, and so is a `\u` escape not starting with `00`. Any other text loads as the empty list. Real `JSON.parse` would accept other valid JSON, such as whitespace, a number, an object or any `\u` escape, and put that value into the favorites.
- The diagnostic `console.error` and `console.log` calls (src/features/crypto/cryptoSlice.js:18, 30; src/services/cryptoService.js:31, 41): they only write to the console.
- `localeCompare` is modelled as code-point lexicographic order.
- `toUpperCase` and `toLowerCase` are modelled on ASCII letters only; Unicode case mapping is not modelled.
- `Intl.NumberFormat`, `toFixed(2)` and `parseFloat` are not modelled: digit rendering is a parameter, and parsing is a parameter that returns `None` for `NaN`.
- Floating-point arithmetic: prices, changes and supplies are exact reals.
- Wall-clock time: time stamps are arguments, and `formatLastUpdated` is not modelled.
- Timer timing and the 10-second period: a tick is an explicit call.
- Overlapping or out-of-order fetch completions, which are concurrency; a fetch settles when the caller calls `Settle`.
- CryptoTable.SortedAssets: an insertion sort stands in for the engine's `Array.prototype.sort`. The model proves the result is a permutation in the promised order. It does not state that ties keep their snapshot order. `Array.prototype.sort` has been stable since ES2019 for a consistent comparator, and the insertion sort swaps only on a strictly positive comparison, so equal non-null values do keep their order; the contract simply does not say so. With two or more null values the comparator returns 1 both ways, which is not a consistent order, so the engine's order of those rows is implementation-defined and no claim is made for it.
- Provider fields that may be `null` in practice but are plain numbers in the model: rank, price, market cap, volume and circulating supply. Only the three percent changes, the maximum supply and the sparkline are optional.
- `null` and `undefined` are not distinguished.
- The volume-in-coins line, which divides the volume by the price: with a price of 0 the quotient is `NaN` or infinity, which only floating point gives.
- The table's pagination effect (its fetch on mount and on a page or page-size change) is modelled as the `requests` log of `TableView`. React's render scheduling is not modelled.
- The sparkline chart (`src/Components/SparklineChart.jsx`), the application bootstrap (`src/App.jsx`), all markup, and the error panel's fade and shake animation state.
- The selectors other than `selectAssetById` read one field each; they are the fields of `CryptoStore`.
