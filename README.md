# Dictionary viewer page state, in Dafny

The viewer is a browser page that shows a remote Bulgarian dictionary
dataset 100 rows at a time, lets the user page forward and back, filters the
loaded page with a case-insensitive substring search, and switches between
two datasets. Everything it decides lives in `app.js`: a handful of
module-level variables (`currentDatasetKey`, `currentOffset`, `allData`,
`filteredData`, `totalRows`), the handlers that update them
(`previousPage`, `nextPage`, `performSearch`, the completions of
`loadDictionary` and `loadStatistics`, the dataset selector's change
handler) and what the page derives from them (button enablement, page
label, statistics line, table body).

The model has three layers.

- `JsText`, `Rows`, `Datasets`, `Search` and `Views` are pure: the string
  operations the page uses (`trim`, `toLowerCase`, `includes`, `String(n)`),
  the two row shapes and how a column is read from a row, the two dataset
  descriptors, the search predicate and filter, and the views (pagination
  controls, statistics range, table rows). `Views.RenderTable` and
  `Views.CreateTableRow` keep the loops of `renderTable` and
  `createTableRow` and are proved against the functions `Views.Table` and
  `Views.RowCells`.
- `PageModel` describes the page as a value: a `PageState` (the variables
  above plus the text of the search box) and a `Screen` (what the table, the
  buttons and the statistics line last showed). Each handler is a function
  from the state before to the state after and the requests it sends.
  `Step` and `Run` replay any sequence of events. `Step` takes a click on
  Previous or Next whether or not the button is enabled. That is more than
  the page lets through, so the invariants proved over it hold for the page
  too. Each reply to a request
  comes back as an event of its own, so replies may arrive in any order.
  The invariants: the offset stays a multiple of 100, and the filtered rows
  are always what some search of the loaded rows selects. They are proved
  for every reachable state (`ReachableConsistent`).
- `ViewerApp.Viewer` is the page itself: a class whose fields are the
  variables and whose methods update them in place. Each handler method
  ensures `Model()` equals the `PageModel` transition from `old(Model())`.
  Each mutating handler also keeps `Valid()`, the invariant above.

Four behaviours of `app.js` worth knowing:
- A reported total of 0 never reaches the statistics line as a number.
  `loadDictionary` ignores a zero `num_rows_total` (app.js:113), and
  `loadStatistics` turns it into 'Unknown' (app.js:136). For an empty
  dataset, the Next button then depends on the order of the two replies:
  - If the statistics reply comes first, Next stays enabled
    (`PageModel.EmptyDatasetNeverEnds`).
  - If the page reply comes first, Next is drawn disabled from the initial
    total 0, and the statistics reply does not redraw the buttons
    (app.js:136-137), so it stays disabled (`PageModel.EmptyDatasetPageFirst`).
- `previousPage` and `nextPage` move `currentOffset` before the page is
  fetched (app.js:210, 216). When the fetch fails, the offset stays moved
  while the old rows stay shown (`PageModel.FailedNextKeepsOldPage`).
- A failed statistics fetch keeps `totalRows` and only changes the
  statistics text (app.js:138-141). `loadStatistics` does not check the
  response status (app.js:134-136). A reply with an error status is parsed
  like any other, and with no `num_rows_total` in it the total becomes
  'Unknown' (`PageModel.StatsSetsTotal`, `PageModel.StatsFailureKeepsTotal`).
- `nextPage` does not look at the total (app.js:215-218). Only the disabled
  button keeps it from paging past the end (`PageModel.NextPastTheEnd`).

Inputs that come from outside the page are parameters. These are the parsed
reply of each request (`PageReply`, `StatsReply`), the text the user types
in the search box (`EditSearchText`) and the dataset they select.

## Model

| member | source | states |
|---|---|---|
| JsText.IsTrimmable | app.js:189 | the code points `trim` removes: ECMAScript's white space and line terminators |
| JsText.TrimStart | app.js:189 | the result is a suffix of the input; every code point dropped is ECMAScript white space or a line terminator; the result does not start with one |
| JsText.TrimEnd | app.js:189 | the result is a prefix of the input; every code point dropped is trimmable; the result does not end with one |
| JsText.Trim | app.js:189 | `s.trim()`: no longer than its input, and neither end of the result is trimmable |
| JsText.TrimIsSlice | app.js:189 | `trim` keeps one contiguous slice of its input, removes only trimmable code points around it, and leaves no trimmable code point at either end |
| JsText.TrimEmptyIff | app.js:189-192 | a string trims to the empty query exactly when all its code points are trimmable |
| JsText.TrimKeepsTrimmed | app.js:189 | a string with no trimmable code point at either end is unchanged by `trim` |
| JsText.LowerChar | app.js:189 | `toLowerCase` of one code point: only Basic Latin and basic Cyrillic capitals change, and the result is never such a capital |
| JsText.Lower | app.js:189 | `toLowerCase` keeps the length and lower-cases each code point in turn |
| JsText.LowerIdempotent | app.js:189 | lower-casing twice is lower-casing once |
| JsText.LowerKeepsTrimmable | app.js:189 | lower-casing leaves white space untouched |
| JsText.Includes | app.js:198 | `s.includes(q)`: `q` occurs in `s` starting at some position |
| JsText.IncludesEmpty | app.js:198 | every string includes the empty string |
| JsText.EmptyIncludesOnlyEmpty | app.js:198 | the empty string includes only the empty string |
| JsText.NatToDecimal | app.js:198 | `String(n)` for a non-negative integer is a non-empty run of decimal digits, with no leading zero; it starts with `0` exactly when `n` is 0 |
| JsText.DecimalRoundTrip | app.js:198 | the digits written for `n` read back as `n` |
| Rows.Truthy | app.js:179 | JavaScript truthiness of a cell value, as the fallback to `''` for a column tests it (and app.js:113, 136, 173 and 198 alike): a non-empty string, a non-zero number, `true` |
| Rows.ToText | app.js:198 | `String(v)` of a truthy value is never empty |
| Rows.Unwrap | app.js:173 | reading `entry.row`, else `entry`: an envelope yields its field map; a bare row yields itself, or no fields when its own `row` field is truthy |
| Rows.EnvelopeIsTransparent | app.js:173 | a row envelope `{row: fields}` reads like the bare `fields` exactly when the bare map has no truthy `row` field of its own |
| Rows.ColumnText | app.js:179 | a column's text is empty exactly when the field is absent or falsy; a string field's text is the string itself |
| Datasets.Descriptor | app.js:5-25 | the two dataset descriptors, name, config, split and columns as the page declares them; each displays at least two columns |
| Search.NormalizeQuery | app.js:189 | the query `performSearch` derives from the box, lower-cased then trimmed: no longer than the input, with no trimmable code point at either end |
| Search.RowMatches | app.js:196-199 | the `filter` callback: some configured column's text, lower-cased, includes the query |
| Search.Filter | app.js:195-200 | `allData.filter(...)` with that callback: never more rows than it is given |
| Search.Selected | app.js:192-200 | the rows a normalized query selects: all the rows when it is empty, the filter otherwise |
| Search.ApplySearch | app.js:189-200 | what `performSearch` puts in `filteredData` for the text of the search box: never more rows than are loaded |
| Search.SpecialCaseAgreesWithFilter | app.js:192-200 | for both datasets, the `!query` branch gives what filtering by the empty query would: the selection is the filter for every query |
| Search.SeqFilter | app.js:195-200 | the filter never returns more rows than it is given |
| Search.SeqFilterSelects | app.js:195-200 | the filter's result is the subsequence of its input at the strictly increasing positions of exactly the accepted elements |
| Search.SeqFilterMembership | app.js:195-200 | an element is in the result exactly when it is in the input and accepted |
| Search.SeqFilterIdempotent | app.js:195-200 | filtering a filtered sequence again changes nothing |
| Search.SeqFilterKeepsAll | app.js:195-200 | when every element is accepted the result is the input |
| Search.SeqFilterDropsAll | app.js:195-200 | when no element is accepted the result is empty |
| Search.FilterSelects | app.js:195-200 | the search keeps, in order, exactly the rows for which some configured column's lower-cased text contains the query |
| Search.FilterMembership | app.js:195-200 | a row is kept exactly when it is a loaded row and it matches |
| Search.FilterIdempotent | app.js:195-200 | searching the search result again with the same query gives the same rows |
| Search.EmptyQueryKeepsEveryRow | app.js:192-200 | with at least one column every row matches the empty query, so the empty-query branch agrees with the filter |
| Search.BlankInputShowsEveryRow | app.js:189-193 | a search box holding only white space shows every loaded row |
| Search.NonBlankInputFilters | app.js:189-200 | any other input filters the rows with its lower-cased, trimmed form |
| Search.SearchIgnoresCase | app.js:189 | typing the query in any letter case selects the same rows as typing it in lower case |
| Search.BlankRowNeverMatches | app.js:198 | a row whose configured columns are all absent or falsy never matches a non-empty query |
| Search.WordSearchKeepsBoth | app.js:188-200 | rows `{word:"Ab"}` and `{word:"bc"}` both match "b" |
| Search.WordSearchKeepsNone | app.js:188-200 | neither of those rows matches "x" |
| Views.CanGoPrevious | app.js:222 | `canGoPrevious`: the offset is positive |
| Views.CanGoNext | app.js:223 | `canGoNext`: a next page starts before a known total, or the total is 'Unknown' |
| Views.PageLabel | app.js:230 | `Math.floor(offset / 100) + 1`: the page `k >= 1` with `100(k-1) <= offset < 100k` |
| Views.PaginationControls | app.js:221-230 | the state of both button pairs and the page label |
| Views.ShownRange | app.js:146-148 | `currentOffset + 1` to `Math.min(currentOffset + 100, totalRows)`: the end is the smaller of the two, reached by one of them |
| Views.StatisticsLine | app.js:145-151 | `updateStatistics`: the total and the range for a known total, the range's start for 'Unknown' |
| Views.PreviousEnabledIffItMoves | app.js:222 | on a page boundary, the previous button is enabled exactly when `previousPage`'s guard lets it move |
| Views.PageLabelOfPage | app.js:230 | the page starting at row `100k` is labelled `k + 1` |
| Views.PageLabelSteps | app.js:230 | one page forward adds one to the label, one page back subtracts one |
| Views.UnknownTotalAlwaysHasNext | app.js:223 | with an unknown total the next button is enabled at every offset |
| Views.PagerOnLastPage | app.js:221-230 | 250 rows at offset 200: previous enabled, next disabled, page 3 |
| Views.ShownRangeIsPage | app.js:146-148 | the range shown holds exactly the 1-based positions of the existing rows of the page; it is inverted exactly when the page lies past the total |
| Views.NextEnabledIffRowsRemain | app.js:223 | for a known total, the next button is enabled exactly when the shown range ends before the total |
| Views.RowCells | app.js:178-181 | one cell per configured column, in column order, each the column's text |
| Views.DataRows | app.js:164-167 | one data row per entry, in order, numbered consecutively |
| Views.Table | app.js:155-168 | the body is the single placeholder spanning `columns + 1` cells exactly when nothing is left; otherwise one row per filtered row with display index `offset + i + 1` |
| Views.CreateTableRow | app.js:171-185 | the row built by the column loop carries index `offset + index + 1` and each configured column's text |
| Views.RenderTable | app.js:155-168 | the rows built by the loop are the table body `Table` describes |
| Wrappers.Option.GetOr | app.js:109 | `result.rows`, or `[]` when the reply has none: the value when present, the default otherwise |
| PageModel.PageRequest | app.js:99-101 | the read `loadDictionary` sends: the current dataset, from the current offset, 100 rows |
| PageModel.StatsRequest | app.js:131-133 | the read `loadStatistics` sends: the current dataset, from row 0, one row |
| PageModel.InitialPage | app.js:71-76 | the variables' initial values (app.js:27-34), which the dataset switch restores: offset 0, no rows, total 0, an empty search box |
| PageModel.Initial | app.js:27-34 | the state when the page loads: the `alpaca` dataset's initial variables, and the markup's own table, buttons and statistics text |
| PageModel.Reported | app.js:113 | `if (result.num_rows_total)`: the reply states a total and it is not 0 |
| PageModel.Start | app.js:52-54 | the page's first two calls: a page read at the current offset, then the one-row statistics read, nothing else changed; from a page boundary both requests are well-formed |
| PageModel.PreviousPage | app.js:208-213 | `previousPage`: back one page and one page read when the offset is at least 100, nothing otherwise; the display is left alone |
| PageModel.NextPage | app.js:215-218 | `nextPage`: forward one page and one read of it; the display is left alone |
| PageModel.EditSearch | app.js:189 | typing in the search box: only the box text changes |
| PageModel.Redisplay | app.js:118-119 | `renderTable()` then `updatePaginationButtons()`: table and buttons redrawn, statistics line kept |
| PageModel.PerformSearch | app.js:188-205 | `performSearch`: filtered rows recomputed from the loaded rows, table and buttons redrawn, no request, statistics line kept |
| PageModel.PageLoaded | app.js:104-126 | the completion of `loadDictionary`: a failure changes nothing; a body replaces the loaded and filtered rows, the total and statistics when reported, and redraws; offset, dataset and box text are kept and nothing is sent |
| PageModel.StatsLoaded | app.js:132-141 | the completion of `loadStatistics`: only the total and the statistics line change, never the table or the buttons |
| PageModel.SwitchDataset | app.js:70-80 | the dataset selector's change handler: the new dataset's initial variables, the display kept, one page read and one statistics read |
| PageModel.Step | app.js:60-80 | one user action or reply; at most two requests |
| PageModel.Run | app.js:60-80 | a sequence of events in order, with every request sent; at most two per event |
| PageModel.InitialConsistent | app.js:27-34 | the initial variables satisfy the invariants, and the first two requests are well-formed |
| PageModel.PreviousConsistent | app.js:208-213 | `previousPage` keeps the invariants and sends only well-formed requests |
| PageModel.NextConsistent | app.js:215-218 | `nextPage` keeps the invariants and sends only well-formed requests |
| PageModel.EditConsistent | app.js:189 | editing the search box keeps the invariants |
| PageModel.SearchConsistent | app.js:188-205 | `performSearch` keeps the invariants and sends no request |
| PageModel.LoadConsistent | app.js:104-126 | a page reply, successful or not, keeps the invariants and sends no request |
| PageModel.StatsConsistent | app.js:132-141 | a statistics reply keeps the invariants |
| PageModel.SwitchConsistent | app.js:70-80 | a dataset switch establishes the invariants and sends well-formed requests |
| PageModel.StepConsistent | app.js:60-80 | every event keeps the invariants and sends only well-formed requests |
| PageModel.RunConsistent | app.js:60-80 | any sequence of events keeps the invariants, and every request sent on the way is a full page at a page boundary or the one-row statistics read |
| PageModel.ReachableConsistent | app.js:27-80 | in every reachable state the offset is a multiple of 100 and the filtered rows come from the loaded rows |
| PageModel.FilteredIsSubsequence | app.js:193-200 | in a consistent state the filtered rows are an order-preserving subsequence of the loaded rows |
| PageModel.NextThenPrevious | app.js:208-218 | a page forward then a page back restores the state and reloads the page it started on |
| PageModel.PreviousThenNext | app.js:208-218 | a page back then a page forward restores the state |
| PageModel.PreviousOnFirstPage | app.js:208-213 | below offset 100 `previousPage` changes nothing and sends nothing |
| PageModel.NextPastTheEnd | app.js:215-218 | `nextPage` ignores the total: from the last page it requests a page starting at or beyond the last row |
| PageModel.SearchSelectsFromPage | app.js:188-205 | a non-empty search keeps, in order, exactly the matching loaded rows, sends nothing, and changes nothing but the filtered rows and the display |
| PageModel.EmptySearchShowsPage | app.js:192-193 | an empty query shows every loaded row |
| PageModel.SearchIdempotent | app.js:195 | searching twice gives what searching once gave |
| PageModel.LastSearchWins | app.js:195 | each search starts from the loaded rows, so the last query alone decides what is shown |
| PageModel.LoadShowsWholePage | app.js:109-118 | a successful load makes the filtered rows the loaded rows (none when `rows` is absent), keeps the search box text, the offset and the dataset, and shows the whole page |
| PageModel.LoadTotalOnlyWhenReported | app.js:113-116 | a load replaces the total and the statistics line only when the reply states a non-zero total |
| PageModel.FailedLoadChangesNothing | app.js:121-123 | a failed load leaves state and display as they were |
| PageModel.FailedNextKeepsOldPage | app.js:215-218 | after `nextPage` and a failed load, the offset has moved but the old rows and display remain, and a later search numbers the old rows from the new offset |
| PageModel.StatsSetsTotal | app.js:136-137 | a statistics reply sets the total, Unknown for an absent or zero total, refreshes the statistics line, and leaves table and buttons alone |
| PageModel.StatsFailureKeepsTotal | app.js:138-141 | a failed statistics read keeps the total and shows the placeholder text |
| PageModel.EmptyDatasetNeverEnds | app.js:113-136 | with a reported total of 0 the total becomes Unknown, so when the statistics reply arrives before an empty page, the placeholder is shown and the next button is enabled |
| PageModel.EmptyDatasetPageFirst | app.js:113-137 | when the empty page arrives first, from total 0 at offset 0, the next button is drawn disabled and stays disabled after the statistics reply sets the total to Unknown, although the state would enable it |
| PageModel.SwitchForgetsHistory | app.js:70-80 | a switch resets offset, total, rows and search text whatever they were, leaves the display, and sends exactly one page read and one statistics read |
| ViewerApp.Viewer.constructor | app.js:27-34 | the fields start at the variables' initial values, and the invariants hold |
| ViewerApp.Viewer.Start | app.js:52-54 | the page requests its first page and its statistics |
| ViewerApp.Viewer.PreviousPage | app.js:208-213 | the new fields and the request sent are those of the `previousPage` transition; the invariants are kept |
| ViewerApp.Viewer.NextPage | app.js:215-218 | the new fields and the request are those of the `nextPage` transition; the invariants are kept |
| ViewerApp.Viewer.EditSearchText | app.js:189 | only the search box text changes |
| ViewerApp.Viewer.Redisplay | app.js:118-119 | the table and the buttons are recomputed from the current fields |
| ViewerApp.Viewer.PerformSearch | app.js:188-205 | the new fields are those of the `performSearch` transition; the invariants are kept |
| ViewerApp.Viewer.CompleteLoad | app.js:104-126 | the new fields are those of a `loadDictionary` completion with the given reply; the invariants are kept |
| ViewerApp.Viewer.CompleteStats | app.js:132-141 | the new fields are those of a `loadStatistics` completion with the given reply; the invariants are kept |
| ViewerApp.Viewer.SwitchDataset | app.js:70-80 | the new fields and requests are those of the dataset switch; the invariants hold afterwards |
| ViewerApp.FailedNextSession | app.js:104-123 | a client of the class: after any first page of a 250-row dataset loads, `nextPage` requests rows 100-199; when that load fails the offset is 100 while the screen still shows the first page's table, buttons (previous disabled, next enabled, page 1) and the statistics line for 250 entries, rows 1-100 |

## Left out

- `backend/server.js`: an HTTP proxy that forwards two fixed requests and serves static files. It holds no logic beyond defaulting query parameters, and `app.js` does not call it.
- The DOM. This covers building `innerHTML`, toggling the spinner and the error banner (with its message), `updateTableHeaders`, `console.error` and wiring the event listeners. The table, buttons and statistics line are kept as values in `Screen`.
- `escapeHtml`: the browser's HTML fragment serialization of a text node. A cell is kept as the text it shows, so it is never interpreted as markup.
- `fetch` and `await`. Each request is a `Request` value. Each reply is an event carrying the parsed body or a failure. The replies of overlapping requests can arrive in any order, and whichever completes last wins. The model does not tie a reply to the request it answers.
- Building the request URL, including `encodeURIComponent`.
- JsText.LowerChar: lower-cases only Basic Latin and basic Cyrillic capitals (U+0041-U+005A, U+0400-U+042F). Other code points stay as they are, and multi-code-point case mappings are not modelled.
- `toLocaleString`: thousands grouping of the total.
- Views.StatisticsLine: for an unknown total, the end of the range is dropped. The page computes `Math.min(number, 'Unknown')` there and shows NaN.
- Row entries that are `null`: a `Row` is never `null`. In `app.js` such an entry makes `entry.row` throw at app.js:173, after `allData`, `filteredData`, `totalRows` and the statistics line were updated (app.js:109-115), so the catch at app.js:121 leaves the table half built and the buttons not redrawn. It also throws at app.js:196, in `performSearch`'s uncaught filter callback, so `filteredData` keeps its old value and nothing is redrawn.
- JsText.NatToDecimal: prints every integer exactly. `JSON.parse` makes a numeric cell a double. `String` then prints rounded digits above 2^53 and exponent form (`1e+21`) from 10^21 up, so the model agrees with the page only for integers of magnitude at most 2^53.
- Rows.Value: cell values are strings, integers, booleans and null. Floating-point numbers, objects and arrays are not modelled.
- `rows` that is present but not an array, and a reply body that is JSON `null`. The latter makes `result.rows` throw, which the model treats as `PageError`.
- A dataset selector value outside the two dataset keys.
