# DragonBall character table — a Dafny model

This project models the logic of a Next.js application that lists characters in an
infinite-scrolling table. The model covers three parts of the application.

The server side:
- **The listing route** `GET /api/characters` filters the stored records with four
  criteria taken from the query string: a case-insensitive name substring, a location
  list, a health list and an inclusive power bound. It then cuts out one page and
  describes it with `meta` and `links`.
- **The filter-options route** `GET /api/characters/filter-options` answers with the
  sorted distinct locations, the sorted distinct health states and the largest power.
- **The record memo.** Both routes load the records through a memo held in a
  module-level variable.

The client side:
- `fetchCharacters` and `fetchFilterOptions` build the query string and turn every
  failure into an `APIError`.
- The error helpers normalise errors and decide which ones to retry.
- The query client retries and backs off.
- The infinite query (`useCharacters`) moves the page cursor from one page to the next.

The state rules inside the components:
- The table reads its filters from the URL and writes them back. It derives the
  request filters from them, flattens the loaded pages and keeps a row selection with
  all/indeterminate flags.
- The header has a three-state sort cycle and accessibility labels.
- The filter panel has a multi-select toggle, a summary text, a power clamp, an
  active-filter count, a clear action and the per-field handlers.
- The Storybook harness filters and sorts a fixed record list in the browser.

## Layout

| file | module | what it holds |
|---|---|---|
| `wrappers.dfy` | `Wrappers` | `Option` and `Result` |
| `strings.dfy` | `Strings` | JavaScript string operations: `trim`, `split`, `join`, `includes`, `toLowerCase`, the default string order |
| `numbers.dfy` | `JsNumbers` | a Number that is an integer or NaN, `parseInt`, `toString` |
| `seqs.dfy` | `Seqs` | `filter`, `flat`, `new Set`, a stable sort with a comparator |
| `types.dfy` | `Types` | the records and state shapes |
| `url_params.dfy` | `UrlParams` | `URLSearchParams` as an ordered list of name/value pairs; a class that `set` mutates |
| `store.dfy` | `Store` | the `loadCharacters` memo as a class with a cache field |
| `listing_route.dfy` | `ListingRoute` | `filterCharacters`, pagination, `meta` and `links`, `GET` |
| `filter_options_route.dfy` | `FilterOptionsRoute` | distinct sorted lists, the maximum, `GET` |
| `error_handling.dfy` | `ErrorHandling` | `APIError`, `handleAPIError`, `getErrorMessage`, `shouldRetry` |
| `api.dfy` | `Api` | the query keys, query-string building, both fetchers' outcomes |
| `query_provider.dfy` | `QueryProvider` | the `retry` and `retryDelay` callbacks |
| `use_characters.dfy` | `UseCharacters` | the infinite query and a whole run of page loads |
| `dragon_ball_table.dfy` | `DragonBallTable` | URL ⇄ filters, `apiParams`, `allCharacters`, selection |
| `table_header.dfy` | `TableHeader` | the sort cycle and the labels |
| `filter_panel.dfy` | `FilterPanel` | the panel's state rules |
| `table_stories.dfy` | `TableStories` | the Storybook harness's filter, sort and selection |

## Modelling choices

The model takes each piece of the source in the form that piece has there:
- State that the source mutates is a class. The record memo is
  `Store.CharacterStore`, with its `cache` field. The `URLSearchParams` objects that
  `fetchCharacters` and `updateURL` fill with successive `set` calls are
  `UrlParams.SearchParams`, with its `pairs` field.
- The code that fills those objects is a method with a contract:
  `Api.BuildCharactersQuery`, `DragonBallTable.UpdateURL`,
  `DragonBallTable.SetFilters`.
- Both row-selection handlers copy a `Set` and then add or delete one id. They are the
  methods `DragonBallTable.HandleRowSelect` and `TableStories.HandleStoryRowSelect`.
- Everything else in the source is an expression, and the model writes it as a
  function.

JavaScript built-ins are written out:
- `parseInt` skips leading white space and reads an optional sign and then
  decimal digits. It also reads a `0x` prefix. It gives NaN when there is no digit.
- `Number.prototype.toString` prints an integer in decimal.
- `String.prototype.split` and `join` use a one-character separator.
- `trim` skips white space and line terminators.
- `slice` counts negative indices from the end and clips the result.
- `Math.ceil` of a quotient is written for a positive divisor.
- `|| 0` and the other truthiness tests are written out.

The characters in the store are unbounded integers for power levels. `x < 10000` on a
NaN power is false (`JsNumbers.LessThan`).

## Model

| member | source | states |
|---|---|---|
| `Store.CharacterStore.constructor` | src/app/api/characters/route.ts:5 | the memo starts empty |
| `Store.CharacterStore.Load` | src/app/api/characters/route.ts:7-27 | a set cache is returned unchanged and the file is not consulted; otherwise a successful read fills the cache and is returned, and a failed read yields "Failed to load characters data" and leaves the cache empty |
| `Store.LoadTwice` | src/app/api/characters/route.ts:8-10 | once one load has succeeded, every later load returns the same records whatever the file would give; after a failed first load the second succeeds exactly when its read does |
| `ListingRoute.Truthy` | src/app/api/characters/route.ts:33-34 | a criterion counts as given exactly when its parameter is present and non-empty, and then it is the parameter's value |
| `ListingRoute.TrimmedPieces` | src/app/api/characters/route.ts:44 | one trimmed piece for each comma-separated piece of the value, at least one, in order |
| `ListingRoute.FilterStages` | src/app/api/characters/route.ts:29-69 | each of the four passes, whether given or skipped, is the same as filtering by its test |
| `ListingRoute.FilterIsConjunction` | src/app/api/characters/route.ts:29-69 | the successive passes keep exactly the records that meet all four criteria (AND), in input order |
| `ListingRoute.FilterMembership` | src/app/api/characters/route.ts:29-69 | a record is in the result iff it is in the input and meets every given criterion |
| `ListingRoute.FilterOrderAndIdempotence` | src/app/api/characters/route.ts:29-69 | the result is a subsequence of the input, and filtering it again changes nothing |
| `ListingRoute.NameCriterion` | src/app/api/characters/route.ts:33-39 | an absent or empty name keeps every record; otherwise a record is kept iff the lower-cased query occurs at some index of its lower-cased name |
| `ListingRoute.LocationCriterion` | src/app/api/characters/route.ts:42-48 | an absent or empty location keeps every record; otherwise a record is kept iff its location equals one trimmed comma-separated piece |
| `ListingRoute.PieceMembership` | src/app/api/characters/route.ts:44-46 | a value is among the trimmed pieces iff some piece trims to it (the same rule serves the health list at lines 53-55) |
| `ListingRoute.PowerCriterion` | src/app/api/characters/route.ts:60-66 | a power that parses is an inclusive upper bound; an absent, empty or unparseable power keeps every record |
| `ListingRoute.NoCriteriaKeepsAll` | src/app/api/characters/route.ts:29-69 | without any criterion the listing holds every record, in order |
| `ListingRoute.FilterReadsCriteriaOnly` | src/app/api/characters/route.ts:29-69 | two query strings that agree on the four criteria select the same records, whatever their `page` and `limit` |
| `ListingRoute.CeilDiv` | src/app/api/characters/route.ts:85 | the least count of pages of the given size that holds every item; zero exactly for no items |
| `ListingRoute.SliceIndex` | src/app/api/characters/route.ts:88 | a `slice` index: kept when within the sequence, counted from the end when negative, and clipped to 0 or to the length beyond either end |
| `ListingRoute.SliceFrom` | src/app/api/characters/route.ts:88 | a non-negative window is clipped to the end of the list: at most its width, exactly its width when it fits, empty past the end |
| `ListingRoute.PageCounts` | src/app/api/characters/route.ts:84-112 | `totalItems` is the filtered length; `totalPages` is its ceiling quotient by `limit`, zero iff nothing matched; `itemsPerPage` and `currentPage` echo the request |
| `ListingRoute.PageWindow` | src/app/api/characters/route.ts:84-88 | for page ≥ 1, `items` is the window `[(page-1)*limit, page*limit)` of the filtered list clipped to its end; `itemCount` = \|items\| ≤ limit, exactly `limit` before the last page, empty past it |
| `ListingRoute.PageLinks` | src/app/api/characters/route.ts:113-118 | `previous` is empty iff page ≤ 1 and `next` iff page ≥ totalPages; `first` names page 1, `last` names `totalPages`, and every link carries the limit |
| `ListingRoute.NextThenPrevious` | src/app/api/characters/route.ts:115-116 | following `next` and then that page's `previous` leads back to the starting page |
| `ListingRoute.PageItemsSuffix` | src/app/api/characters/route.ts:84-88 | the pages from `page` to the last one, concatenated, are the filtered list from `(page-1)*limit` on |
| `ListingRoute.PagesCoverFiltered` | src/app/api/characters/route.ts:84-88 | the items of pages 1..totalPages, concatenated, are the filtered list, so the item counts add up to `totalItems` |
| `ListingRoute.DefaultCursor` | src/app/api/characters/route.ts:76-77 | without `page` and `limit` the route serves page 1 of size 10 |
| `ListingRoute.Get` | src/app/api/characters/route.ts:71-129 | status 500 with "Failed to fetch characters" iff the memo was empty and the read fails; otherwise the paginated filtered list of the cached records, which after a first successful read are the records read; a set memo is never replaced |
| `FilterOptionsRoute.LocationsOf` | src/app/api/characters/filter-options/route.ts:34 | the records' locations, one per record, in order |
| `FilterOptionsRoute.HealthTextsOf` | src/app/api/characters/filter-options/route.ts:35 | the records' health texts, one per record, in order |
| `FilterOptionsRoute.MaxPower` | src/app/api/characters/filter-options/route.ts:36 | for a non-empty store, at least every record's power and equal to some record's power; absent (`-Infinity` in the source) for an empty store |
| `FilterOptionsRoute.OptionsContents` | src/app/api/characters/filter-options/route.ts:34-35 | each list holds exactly the values some record has, with none missing and none extra, strictly ascending and so without repeats |
| `FilterOptionsRoute.LocationContents` | src/app/api/characters/filter-options/route.ts:34 | a location is listed iff some record has it |
| `FilterOptionsRoute.HealthContents` | src/app/api/characters/filter-options/route.ts:35 | a health state is listed iff some record has it |
| `FilterOptionsRoute.OptionsIgnoreOrder` | src/app/api/characters/filter-options/route.ts:34-36 | the whole answer depends only on which records the store holds, not on their order or repetition |
| `FilterOptionsRoute.ListsIgnoreOrder` | src/app/api/characters/filter-options/route.ts:34-35 | both lists are the same for stores with the same records |
| `FilterOptionsRoute.MaxIgnoreOrder` | src/app/api/characters/filter-options/route.ts:36 | the maximum is the same for stores with the same records |
| `FilterOptionsRoute.MaxBelow` | src/app/api/characters/filter-options/route.ts:36 | adding records never lowers the maximum |
| `FilterOptionsRoute.AllHealthStates` | src/app/api/characters/filter-options/route.ts:35 | with all three health states present the list is `Critical, Healthy, Injured` |
| `FilterOptionsRoute.HealthMembers` | src/app/api/characters/filter-options/route.ts:35 | with all three states present, the listed states are exactly the three names |
| `FilterOptionsRoute.Get` | src/app/api/characters/filter-options/route.ts:29-54 | status 500 with "Failed to fetch filter options" iff the memo was empty and the read fails; otherwise the options of the cached records, which after a first successful read are the records read; a set memo is never replaced |
| `ErrorHandling.NormaliseAgrees` | src/utils/errorHandling.ts:12-34 | `handleAPIError` is the identity on an `APIError`; an `Error` keeps its message and gets no status; anything else becomes "An unknown error occurred"; normalising is idempotent; `getErrorMessage` is the normalised error's message |
| `ErrorHandling.ShouldRetryCases` | src/utils/errorHandling.ts:36-48 | an `APIError` is retried iff it has a status ≥ 500 (never 4xx, never without a status); anything else iff it is a `TypeError` whose message contains "fetch" |
| `Api.KeysIdentify` | src/utils/api.ts:4-7 | two characters keys are equal iff their parameters are; no characters key is the filter-options key |
| `Api.BuildCharactersQuery` | src/utils/api.ts:13-29 | the fresh `URLSearchParams` ends up with the pairs `page`, `limit`, then `name`, `location`, `health` when non-empty and `power` when defined, in that order |
| `Api.SetText` | src/utils/api.ts:18-26 | a text parameter is appended exactly when it is non-empty; only names set so far occur |
| `Api.QueryValues` | src/utils/api.ts:13-29 | `get` reads back `page` and `limit` always, each text parameter exactly when non-empty, and `power` exactly when defined (0 included) |
| `Api.CursorValues` | src/utils/api.ts:15-16 | `page` and `limit` are always present, as their decimal text |
| `Api.NameValue` | src/utils/api.ts:18-20 | `name` is present iff non-empty |
| `Api.LocationValue` | src/utils/api.ts:21-23 | `location` is present iff non-empty |
| `Api.HealthValue` | src/utils/api.ts:24-26 | `health` is present iff non-empty |
| `Api.PowerValue` | src/utils/api.ts:27-29 | `power` is present iff defined, including 0 |
| `Api.FetchCharactersOutcomes` | src/utils/api.ts:12-84 | the page is returned iff the response is OK and its body parses; a non-OK response gives the `APIError` with its status and status text; an abort (from the request or from reading the body) gives the status-less timeout `APIError`; any other non-`APIError` failure gives the network `APIError` when it is a `TypeError` whose message mentions `fetch`, and the generic one otherwise |
| `Api.AbortIsTimeout` | src/utils/api.ts:60-64 | an abort ends in the timeout `APIError` with no status |
| `Api.FetchFilterOptionsOutcomes` | src/utils/api.ts:87-115 | the body is returned, unchanged, iff the response is OK and parses; a non-OK response gives the `APIError` with its status; every other failure gives the generic `APIError` |
| `QueryProvider.Pow2` | src/components/QueryProvider.tsx:27 | `2 ** i` is at least 1 |
| `QueryProvider.RetryDelayShape` | src/components/QueryProvider.tsx:26-27 | the delay stays in [1000, 30000], never decreases, doubles while below the cap and is 30000 from index 5 on |
| `QueryProvider.RetryStopsAfterThree` | src/components/QueryProvider.tsx:19-21 | nothing is retried after three failures |
| `QueryProvider.CharactersRetryPolicy` | src/components/QueryProvider.tsx:19-25 | before the third failure, a `fetchCharacters` error is retried iff the server answered with status ≥ 500; timeouts, network errors and 4xx answers are not retried |
| `UseCharacters.NextPageParamBounds` | src/hooks/useCharacters.ts:17-30 | a next page exists iff `currentPage < totalPages`; it is `currentPage + 1`, above the current page and never past `totalPages` |
| `UseCharacters.QueryKeyIdentifies` | src/hooks/useCharacters.ts:12 | the key tells apart exactly the filter-and-limit combinations, with the page fixed at 1 |
| `UseCharacters.RequestsDifferOnlyInPage` | src/hooks/useCharacters.ts:13-16 | the first request asks for page 1, and the query strings of any two requests of one query agree on every parameter except `page` |
| `UseCharacters.RequestCursor` | src/app/api/characters/route.ts:76-77 | the route parses back the page and limit a request carries |
| `UseCharacters.ServedPage` | src/hooks/useCharacters.ts:13-16 | every page of one query is cut from the same filtered list |
| `UseCharacters.ServerNumbered` | src/app/api/characters/route.ts:104-112 | the route's answer to each request of a query reports the page asked for and the page count of the query's filtered list |
| `UseCharacters.ServedPages` | src/hooks/useCharacters.ts:13-16 | every answer to a request of one query is the page cut from the same filtered list |
| `UseCharacters.Run` | src/hooks/useCharacters.ts:17-31 | the pages loaded by following `getNextPageParam` from a page, against any server that numbers its answers; at least that page |
| `UseCharacters.RunStep` | src/hooks/useCharacters.ts:17-31 | one step of a query: the answer for the current page, then the following pages while there is a next one |
| `UseCharacters.RunLength` | src/hooks/useCharacters.ts:17-31 | from a page, a query loads one page per page number up to `totalPages` (that page alone when it is the last or past it), and then stops |
| `UseCharacters.RunAt` | src/hooks/useCharacters.ts:17-31 | the `i`-th page loaded from page `p` is the answer for page `p + i` |
| `UseCharacters.Session` | src/hooks/useCharacters.ts:17-31 | the pages the query loads from a page against the listing route; at least that page |
| `UseCharacters.SessionPages` | src/hooks/useCharacters.ts:17-31 | from page 1 a query loads pages 1..totalPages once each, in order (page 1 alone when nothing matches), and then stops; each is the route's answer to the request for its page |
| `UseCharacters.ItemsOf` | src/components/DragonBallTable.tsx:130 | the items of each loaded page, in order |
| `UseCharacters.SessionCoversFiltered` | src/hooks/useCharacters.ts:17-31 | the loaded pages, concatenated, hold exactly the route's filtered list, in order |
| `UseCharacters.RunMatchesPages` | src/hooks/useCharacters.ts:17-31 | against a server that answers with the route's pages, the pages a query loads from a page on are the route's pages from that page to the last |
| `DragonBallTable.ListFromUrl` | src/components/DragonBallTable.tsx:44-47 | a missing or empty parameter gives `[]`; otherwise the entries are exactly the non-empty `,`-separated pieces, in their order, each non-empty and comma-free |
| `DragonBallTable.GetInitialFilters` | src/components/DragonBallTable.tsx:38-50 | each list holds exactly the non-empty `,`-separated pieces of its parameter, in order (none when it is missing); a missing name is empty; a missing or empty power is 10000; any other power is what `parseInt` reads (NaN when it reads nothing) |
| `DragonBallTable.Serialize` | src/components/DragonBallTable.tsx:82 | the query text is empty iff there is no parameter |
| `DragonBallTable.Href` | src/components/DragonBallTable.tsx:82-83 | the bare path iff there is no parameter, otherwise the path, `?` and the query text |
| `DragonBallTable.UpdateURL` | src/components/DragonBallTable.tsx:58-87 | the URL is built from the pairs for the new filters and the new sort, or the current sort when none is given (as `handleFiltersChange` at lines 90-96 and `handleSort` at lines 141-148 call it) |
| `DragonBallTable.SetFilters` | src/components/DragonBallTable.tsx:62-73 | the fresh parameters get a pair for each active filter, in order: `location`, `health`, `name`, `power` |
| `DragonBallTable.UrlValues` | src/components/DragonBallTable.tsx:58-80 | `get` reads back each filter as written: the joined list, the name, the power below 10000 |
| `DragonBallTable.ListRoundTrip` | src/components/DragonBallTable.tsx:45 | a list of non-empty comma-free entries reads back from its comma-joined form |
| `DragonBallTable.UrlRoundTrip` | src/components/DragonBallTable.tsx:38-73 | reading the URL written for some filters gives those filters back, when list entries are non-empty and comma-free and the power is a number not above 10000 |
| `DragonBallTable.UrlParameters` | src/components/DragonBallTable.tsx:58-84 | each list is written iff non-empty, the name iff non-empty, the power iff below 10000; the bare path iff no parameter is written |
| `DragonBallTable.ApiParamsOf` | src/components/DragonBallTable.tsx:105-113 | a list, the name or the power is sent exactly when the list is non-empty, the name non-empty or the power below 10000; the name and power are sent as they are |
| `DragonBallTable.ApiListsSplitBack` | src/components/DragonBallTable.tsx:107-108 | a non-empty list of comma-free entries splits back from the joined text the request carries |
| `DragonBallTable.ServerCriteria` | src/components/DragonBallTable.tsx:105-113 | the route applies to a record exactly the criteria the table's filters ask for, when list entries are clean (non-empty, comma-free, trimmed) |
| `DragonBallTable.ServerSelects` | src/components/DragonBallTable.tsx:105-126 | the route's filtered list for the table's request is the records the table's filters select, in store order |
| `DragonBallTable.AllCharactersGrow` | src/components/DragonBallTable.tsx:129-138 | loading one more page appends its items and changes none before them; the row count is the sum of the page sizes |
| `DragonBallTable.TableShowsSelected` | src/components/DragonBallTable.tsx:115-138 | once every page is loaded, the rows are exactly the selected records in store order |
| `DragonBallTable.DefaultTableShowsSelected` | src/components/DragonBallTable.tsx:31 | with the default page size of 10 (the `limit` of the query at lines 123-126), once every page is loaded the rows are exactly the selected records in store order |
| `DragonBallTable.Toggle` | src/components/DragonBallTable.tsx:154-160 | exactly the given id changes membership, and the count moves by one |
| `DragonBallTable.ToggleTwice` | src/components/DragonBallTable.tsx:154-160 | toggling the same id twice restores the selection |
| `DragonBallTable.FlagsExclusive` | src/components/DragonBallTable.tsx:162-169 | the row rule never sets both flags, and sets neither for an empty selection |
| `DragonBallTable.HandleRowSelect` | src/components/DragonBallTable.tsx:151-173 | the id is toggled; all-selected iff 0 < count = totalVisible, indeterminate iff 0 < count < totalVisible |
| `DragonBallTable.IdsOf` | src/components/DragonBallTable.tsx:187 | an id is collected iff some row has it |
| `DragonBallTable.HandleSelectAll` | src/components/DragonBallTable.tsx:176-195 | from all-selected, nothing is selected and both flags are clear; otherwise exactly the loaded rows' ids, all-selected and not indeterminate |
| `DragonBallTable.SelectAllTwice` | src/components/DragonBallTable.tsx:176-195 | pressing select-all twice from a state that is not all-selected clears the selection |
| `DragonBallTable.DistinctIds` | src/components/DragonBallTable.tsx:187 | rows with distinct ids give as many ids as rows |
| `DragonBallTable.SelectAllFlags` | src/components/DragonBallTable.tsx:176-195 | with at least one row, select-all sets the flags the row rule would; with no rows it reports all selected with nothing selected, which the row rule never does |
| `TableHeader.Find` | src/components/TableHeader.tsx:195 | the column found has the key; none is found iff no column has it |
| `TableHeader.SortableColumns` | src/components/TableHeader.tsx:23-60 | exactly `name` and `power` are sortable |
| `TableHeader.HandleSort` | src/components/TableHeader.tsx:193-210 | `onSort` is called iff the column is known and sortable, and always with the clicked column |
| `TableHeader.ClickIsStep` | src/components/TableHeader.tsx:193-210 | a click on a sortable column takes one step of the cycle; any other click changes nothing |
| `TableHeader.StepTransitions` | src/components/TableHeader.tsx:197-205 | another column starts at `asc`; on the sorted column `asc` goes to `desc`, `desc` to none and none to `asc` |
| `TableHeader.ThreeClicksCycle` | src/components/TableHeader.tsx:197-207 | three clicks on the sorted sortable column restore the sort; from another column the first click sorts ascending and the cycle starts there |
| `TableHeader.StepThrice` | src/components/TableHeader.tsx:197-205 | on the sorted column three steps go round the cycle once |
| `TableHeader.SortAriaLabelNamesNextAction` | src/components/TableHeader.tsx:141-152 | the sort label names what the next click asks for (ascending, descending, remove sorting), except on the sorted column with no direction, where it says only "Sort by" the column |
| `TableHeader.AriaSort` | src/components/TableHeader.tsx:168-176 | `aria-sort` is set iff the column is sortable and the sorted one |
| `TableHeader.AriaSortValues` | src/components/TableHeader.tsx:168-176 | the sorted column's `aria-sort` is "ascending", "descending" or "none" after its direction |
| `TableHeader.SelectAllAriaLabelCases` | src/components/TableHeader.tsx:222-230 | "Deselect all" iff all are selected; the partial-selection text iff indeterminate and not all selected; "Select all" otherwise |
| `FilterPanel.HandleOptionToggle` | src/components/FilterPanel.tsx:49-54 | a selected option is removed everywhere with the other values' membership unchanged; an unselected one is appended at the end |
| `FilterPanel.ToggleFlips` | src/components/FilterPanel.tsx:49-54 | toggling flips the option's membership, leaves every other value's membership alone and keeps the others in their order |
| `FilterPanel.ToggleTwice` | src/components/FilterPanel.tsx:49-54 | toggling an unselected option twice restores the list; toggling a selected one twice moves it, once, to the end |
| `FilterPanel.DisplayTextCount` | src/components/FilterPanel.tsx:56-61 | with two or more selections the summary begins with their count, which `parseInt` reads back |
| `FilterPanel.HandleInputBlur` | src/components/FilterPanel.tsx:158-164 | the value is in [0, max] when max ≥ 0; text that does not parse gives 0; a value in range is kept, one above max becomes max and a negative one 0; the shown text is the value's decimal form |
| `FilterPanel.BlurIdempotent` | src/components/FilterPanel.tsx:158-164 | a second blur changes nothing |
| `FilterPanel.ActiveCount` | src/components/FilterPanel.tsx:385-388 | the count is positive iff `hasActiveFilters` (lines 299-303) holds, and at least the number of selected list values |
| `FilterPanel.ClearFilters` | src/components/FilterPanel.tsx:289-297 | after clearing nothing is active and the count is 0 |
| `FilterPanel.ClearFiltersUnique` | src/components/FilterPanel.tsx:289-297 | the cleared filters are the only ones with nothing active and the power at the maximum |
| `FilterPanel.WithLocation` | src/components/FilterPanel.tsx:259-267 | only the location list changes |
| `FilterPanel.WithHealth` | src/components/FilterPanel.tsx:269-277 | only the health list changes |
| `FilterPanel.WithPower` | src/components/FilterPanel.tsx:279-287 | only the power changes |
| `FilterPanel.NameEffect` | src/components/FilterPanel.tsx:238-245 | the filters are reported iff the debounced name differs, with only the name replaced |
| `FilterPanel.HandlersCommute` | src/components/FilterPanel.tsx:259-287 | the handlers touch disjoint fields, so they commute, and a later change of a field overrides an earlier one |
| `FilterPanel.LoadedOptions` | src/components/FilterPanel.tsx:210-235 | the initial empty options while loading, the loaded options when loading succeeds, the fixed fallback options when it fails; the maximum power is 10000 unless options loaded |
| `TableStories.FilteredCharacters` | src/stories/DragonBallTable.stories.tsx:48-64 | a record is kept iff its location and health are in the non-empty lists, the non-empty name occurs in its name ignoring case, and its power is within the bound (a NaN bound keeps all) |
| `TableStories.FilteredOrderAndIdempotence` | src/stories/DragonBallTable.stories.tsx:48-64 | the filtered list keeps input order, and filtering it again changes nothing |
| `TableStories.StoryAgreesWithTable` | src/stories/DragonBallTable.stories.tsx:59-61 | the harness always applies the power bound where the table drops a bound of 10000 or more; they agree on every record otherwise |
| `TableStories.InitialStoryIsEmpty` | src/stories/DragonBallTable.stories.tsx:29-34 | with its starting filters (power 10000) the harness shows none of its records |
| `TableStories.DescendingIsSwapped` | src/stories/DragonBallTable.stories.tsx:76-86 | the descending comparator is the ascending one with its arguments swapped |
| `TableStories.RowCompareConsistent` | src/stories/DragonBallTable.stories.tsx:72-89 | every column's comparator is total and transitive, in either direction |
| `TableStories.SortedCharacters` | src/stories/DragonBallTable.stories.tsx:67-90 | the rows are a permutation of the filtered list (a sorted copy; the input is a value and stays as it was) |
| `TableStories.SortedByColumn` | src/stories/DragonBallTable.stories.tsx:72-89 | a sorted copy is ordered by the column's comparator |
| `TableStories.PowerOrder` | src/stories/DragonBallTable.stories.tsx:82-86 | by power, ascending is non-decreasing and descending non-increasing |
| `TableStories.NameOrder` | src/stories/DragonBallTable.stories.tsx:76-80 | by name, ascending never puts a name before a smaller one, and descending never after one |
| `TableStories.UnsortedKeepsOrder` | src/stories/DragonBallTable.stories.tsx:68-70 | without a column (none or empty) or a direction the rows are the filtered list unchanged |
| `TableStories.HandleStoryRowSelect` | src/stories/DragonBallTable.stories.tsx:96-115 | the id is toggled and the flags follow the count of sorted rows, never both set |
| `TableStories.StorySelectAllFlags` | src/stories/DragonBallTable.stories.tsx:117-134 | select-all never sets both flags and flips all-selected |
| `UrlParams.Get` | src/app/api/characters/route.ts:33 | `get` finds a value iff some pair has the name |
| `UrlParams.SetParam` | src/utils/api.ts:15 | after `set`, `get` finds the new value, every other name reads as before, and the names present are the old ones plus the key |
| `UrlParams.SearchParams.constructor` | src/utils/api.ts:14 | a new `URLSearchParams` has no pair |
| `UrlParams.SearchParams.Set` | src/utils/api.ts:15 | the pairs become those `set` gives |
| `Strings.Trim` | src/app/api/characters/route.ts:44 | the result has no white space at either end, and a trimmed string is kept |
| `Strings.TrimStripsEnds` | src/app/api/characters/route.ts:44 | `trim` removes only white space at the two ends: the result is a window of the input with only white space around it |
| `Strings.Split` | src/app/api/characters/route.ts:44 | at least one piece, none holding the separator, and joining them gives the input back |
| `Strings.SplitJoin` | src/components/DragonBallTable.tsx:45 | splitting a join of separator-free pieces gives the pieces back |
| `Strings.ContainsIff` | src/app/api/characters/route.ts:37 | `includes` holds iff the needle occurs at some index |
| `Strings.ToLower` | src/app/api/characters/route.ts:35 | lowering keeps the length |
| `Strings.StrCompare` | src/stories/DragonBallTable.stories.tsx:78 | the comparison is zero iff the strings are equal, negative iff the first is smaller, positive iff it is larger |
| `Strings.StrLtTransitive` | src/app/api/characters/filter-options/route.ts:34 | the default string order is transitive |
| `Strings.StrLtTotal` | src/app/api/characters/filter-options/route.ts:34 | any two strings are equal or ordered one way |
| `Strings.StrLtIrreflexive` | src/app/api/characters/filter-options/route.ts:34 | no string is below itself |
| `JsNumbers.NatToString` | src/utils/api.ts:15 | decimal digits, one exactly below 10, no leading zero |
| `JsNumbers.ParseIntToString` | src/app/api/characters/route.ts:62 | `parseInt` reads back every integer `toString` prints |
| `JsNumbers.DecimalValueOfNatToString` | src/utils/api.ts:15 | the printed digits have the printed value |
| `Seqs.Keep` | src/app/api/characters/route.ts:36-38 | `filter` keeps exactly the elements that pass, never more than the input |
| `Seqs.KeepConjunction` | src/app/api/characters/route.ts:45-56 | two successive filters are one filter by the conjunction |
| `Seqs.Dedup` | src/app/api/characters/filter-options/route.ts:34 | `new Set` keeps every value once and no other value |
| `Seqs.SortedUnique` | src/app/api/characters/filter-options/route.ts:34 | the distinct values, strictly ascending |
| `Seqs.StrictlyAscendingUnique` | src/app/api/characters/filter-options/route.ts:34 | a strictly ascending list is determined by its members |
| `Seqs.StrCompareConsistent` | src/app/api/characters/filter-options/route.ts:34 | the default string comparison is total and transitive |
| `Seqs.Sort` | src/stories/DragonBallTable.stories.tsx:72 | the sorted copy is a permutation of the input |
| `Seqs.SortSorted` | src/stories/DragonBallTable.stories.tsx:72 | for a consistent comparator the sorted copy is ordered by it |

## Behaviour worth knowing

The model follows the code where the project's own description of its behaviour says
otherwise, or where the code has gaps:
- `links.previous` is empty for every page ≤ 1, not only for page 1.
- The listing's links carry only `page` and `limit`, so following any of them from a
  filtered request drops the filters (`ListingRoute.PageLink`).
- `page` and `limit` fall back to 1 and 10 only when they are absent or empty. Text
  that does not parse gives NaN, and a limit of 0 divides by zero.
- A request that times out carries no status, so `shouldRetry` never retries it.
- With all pages loaded, select-all on an empty table reports "all selected" with
  nothing selected (`DragonBallTable.SelectAllFlags`).
- The sort is written to the URL but is never read back by `getInitialFilters` and
  never applied to the table's rows. Only the Storybook harness sorts.
- The Storybook harness always applies its power bound. With its starting bound of
  10000 it shows none of its records (`TableStories.InitialStoryIsEmpty`).
- The filter panel measures "active" against the options' `maxPower`, while the table
  leaves out any power of 10000 or more from the URL and from the request.
- On the sorted column with no direction, the header's sort label says "Sort by X"
  although the next click sorts ascending (`TableHeader.SortAriaLabelNamesNextAction`).

## Left out

- Reading the data file, `JSON.parse`, `NextResponse`, logging and the 200 ms delay
  are I/O. A read and parse is the abstract input `Store.ReadOutcome`.
- `fetch`, `response.json()`, `AbortController` and the 10-second timer are I/O. How a
  request ended is the abstract input `Api.HttpOutcome`. Only the platform's errors
  (never an `APIError`) are assumed to come out of `fetch`.
- `ListingRoute.Get`: requires `page` and `limit` to parse and `limit` ≥ 1. The route
  has no fallback for other values (NaN arithmetic, division by zero).
- `ListingRoute.PageWindow`: stated for page ≥ 1. A page below 1 goes through the
  modelled `slice` semantics but has no lemma.
- `FilterOptionsRoute.MaxPower`: an empty store gives `None`. JavaScript gives
  `-Infinity`, which has no integer counterpart.
- Percent-encoding of the query string is not modelled. `URLSearchParams` is an
  ordered list of name/value pairs, and its text form is `name=value` pairs joined
  by `&`.
- `toLowerCase` lowers ASCII letters only. Full Unicode case mapping is not modelled.
- `Strings.StrLt` / `Seqs.SortedUnique`: strings are ordered by code point. The default
  `Array.prototype.sort` compares UTF-16 code units, and the two orders agree only on
  strings whose characters are all at or below U+FFFF. `localeCompare` is modelled by the
  same code-point order; locale collation is not modelled.
- Floating-point numbers are not modelled. Power levels, pages and delays are
  integers; NaN is modelled where the code can produce it.
- React Query internals are not modelled: caching, `staleTime` and `gcTime`,
  de-duplication of requests in flight, and retry scheduling. Only the callbacks
  passed to it are modelled.
- Two requests loading the store at the same moment are not modelled; each
  `Load` runs to completion.
- The mutations' `retry: false` is a constant for mutations, and the application
  defines no mutation.
- `useFilterOptions` is a thin wrapper around `useQuery`.
- `VirtualizedTableBody` contains scroll and intersection triggers, timing and a
  floating-point ratio.
- `formatPower` uses floating-point division and `toFixed`.
- Markup-only components, their stories and the colour and icon tables are not
  modelled.
- The debounce timing and `router.replace` navigation are not modelled. The name
  effect is modelled for the debounced value it receives (`FilterPanel.NameEffect`).
- The slider's `parseInt` of its own numeric input value (`FilterPanel.tsx:148-152`,
  `FilterPanel.tsx:448`) always reads a number, so `FilterPanel.WithPower` takes the
  integer directly.
- `Seqs.Sort`: its stability is not stated or proved, though the insertion sort
  that models it is stable.
- `FilterPanel.DisplayText` has no lemma for its placeholder and single-value cases.
  They are its first two branches.
