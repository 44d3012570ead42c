# Pokédex browser: a verified model of its list, pager and display logic

The application is a React single-page Pokédex over the PokéAPI. It has three screens:

- a combined list page (`PokemonsView`), with a page-window mode (`?view` missing or empty) and an infinite-scroll mode (`?view=infinite`);
- a detail page per Pokémon;
- two stand-alone variants of the list page (`LoadMoreView`, `PaginationView`), which the router does not mount.

This project models the logic layer under that UI:

- the truncated pager numbering and its Previous/Next guards;
- the list page's state machine. Its state is the accumulated cards, the set of loaded ids, the load-more offset, the current page and the view mode. Its events are a page arriving, load more, retry, a mode switch and a page change;
- the arithmetic of the page window: request offset, total pages by ceiling division, `hasMore` and the prefetch target;
- the transport layer: how `fetchApi` classifies failures, over an abstract fetch outcome, plus the endpoint strings;
- the record transform, which reads the id out of a resource URL and builds the sprite URL;
- the list and detail retry predicates and cache keys;
- the display formatting on the detail page and the list card: the padded `#id`, capitalised names, stat and ability labels, one-decimal measures, and the 404 error panel.

Modules, one per source file, along with four shared helper modules (`Wrappers`, `Decimal`, `Text` and `Reconciliation`):

- `Wrappers`: `Option`, `Result`.
- `Decimal`: decimal text of naturals and integers, digit-run values, and `Max`/`Min`.
- `Text`: the JavaScript string built-ins the display code relies on (`padStart`, `charAt(0).toUpperCase() + slice(1)`, `split`/`join` on one character, `replace` of the first match), with ASCII case mapping.
- `PokemonApi` (`src/api/pokemon.ts`).
- `PokemonListQuery` (`src/hooks/usePokemonList.ts`).
- `PokemonDetailQuery` (`src/hooks/usePokemonDetail.ts`).
- `PaginationControl` (`src/components/Pagination.tsx`). The method `PageNumbers` is the source's `useMemo`, and its two push loops are the method `PushRun`. It is proved equal to the specification function `Layout`, and every property of the page list is a lemma about `Layout`. The Previous and Next buttons are the functions `PreviousButton` and `NextButton`, with the lemmas `NavigationStaysInRange` and `NextOnEmptyWindow`.
- `Reconciliation`: the filter-and-append merge of the list pages as functions, with its invariants.
- `PokemonsView` (`src/pages/PokemonsView.tsx`). The class `ViewState` holds the page's state, and each handler or effect is a method on it. The merge effect's `forEach(add)` loop is the method `AddIds`.
- `LoadMoreView`, `PaginationView`: the stand-alone pages. Their state and handlers are `ViewState` with the mode fixed. Their own memoized expressions and screens are separate functions, each proved equal to the combined page's in that mode. Methods such as `LoadMoreTimes`, `ArriveAll` and `ErrorIsFinal` (in `PokemonCardComponent`) loop over client scenarios: a series of presses or arrivals, not a loop in the source. `ArriveAll` ties the page's state to `Reconciliation.Accumulate` over every series of arrivals.
- `DetailPage` (`src/pages/DetailPage.tsx`).
- `PokemonCardComponent` (`src/components/PokemonCard.tsx`). It also holds the `ImageState` class, i.e. the card's `imageLoaded`/`imageError` pair, which the detail page reuses.

`ITEMS_PER_PAGE` and `ITEMS_PER_LOAD` are declared in `src/constants/pokemon`, which is not part of this model. They are positive integer parameters (`PosInt`), held as `perPage` and `perLoad` in the class. The API base URL is read from the build environment; it is an arbitrary prefix of the URLs.

## Model

| member | source | states |
|---|---|---|
| PaginationControl.PageNumbers | src/components/Pagination.tsx:10-40 | the list the `useMemo` builds is exactly `Layout(currentPage, totalPages)` |
| PaginationControl.PushRun | src/components/Pagination.tsx:15-17 | a push loop from `lo` to `hi` appends exactly the page buttons `lo..hi` |
| PaginationControl.Layout | src/components/Pagination.tsx:10-40 | the list never has more than 7 entries, whatever the inputs |
| PaginationControl.Run | src/components/Pagination.tsx:15-17 | a run of page buttons `lo..hi` has `hi - lo + 1` entries, or none when `hi < lo` |
| PaginationControl.RunAt | src/components/Pagination.tsx:28-30 | entry `k` of the run `lo..hi` is page `lo + k` |
| PaginationControl.SmallLayout | src/components/Pagination.tsx:14-17 | with at most 7 pages the list is exactly pages `1..totalPages` in order, has no ellipsis, and is empty when `totalPages <= 0` |
| PaginationControl.LongLayoutAt | src/components/Pagination.tsx:18-37 | with more than 7 pages: page 1, then an ellipsis iff `cur > 3`, the middle run `max(2,cur-1)..min(total-1,cur+1)`, an ellipsis iff `cur < total - 2`, then `total` |
| PaginationControl.LongLayoutEnds | src/components/Pagination.tsx:19-36 | with more than 7 pages, the first entry is page 1 and the last is page `totalPages` |
| PaginationControl.LongLayoutEllipses | src/components/Pagination.tsx:21-34 | with the current page in range, the second entry is an ellipsis iff `cur > 3`, and the second-to-last iff `cur < total - 2` |
| PaginationControl.EllipsisCount | src/components/Pagination.tsx:14-37 | the number of ellipses is 0 for a short window, and otherwise one for each of `cur > 3` and `cur < total - 2` |
| PaginationControl.LongLayoutPages | src/components/Pagination.tsx:25-36 | with more than 7 pages, a page number appears iff it is 1, `total`, or in `max(2,cur-1)..min(total-1,cur+1)` |
| PaginationControl.LayoutInRange | src/components/Pagination.tsx:14-37 | for `1 <= cur <= total`: numbers strictly increase, adjacent numbers are consecutive, every ellipsis sits between two numbers more than 1 apart, and `cur` is listed |
| PaginationControl.LongIncreasing | src/components/Pagination.tsx:18-37 | with more than 7 pages and `cur` in range, the page numbers strictly increase |
| PaginationControl.LongWellSpaced | src/components/Pagination.tsx:18-37 | with more than 7 pages and `cur` in range, adjacent numbers are consecutive and each ellipsis marks a gap |
| PaginationControl.LayoutExamples | src/components/Pagination.tsx:14-37 | page 10 of 20 gives `[1,'...',9,10,11,'...',20]`, and page 3 of 5 gives `[1,2,3,4,5]` |
| PaginationControl.PreviousButton | src/components/Pagination.tsx:45-51 | Previous asks for an earlier page; after page 1 it is enabled and asks for a page `>= 1` |
| PaginationControl.NextButton | src/components/Pagination.tsx:72-78 | Next asks for a later page; before the last page it is enabled and asks for a page `<= totalPages` |
| PaginationControl.NavigationStaysInRange | src/components/Pagination.tsx:45-75 | Previous is disabled iff `cur == 1` and asks for `cur - 1`; Next is disabled iff `cur == total` and asks for `cur + 1`; with `cur` in range, an enabled button asks for a page in range |
| PaginationControl.NextOnEmptyWindow | src/components/Pagination.tsx:72-74 | with 0 pages on page 1, Next is enabled and asks for page 2, and the window shows no page button |
| PokemonsView.ViewModeOf | src/pages/PokemonsView.tsx:19 | a missing or empty `view` parameter means `'pagination'`; any other value is the mode as it is |
| PokemonsView.InitialPage | src/pages/PokemonsView.tsx:25-28 | the initial page is the saved page when there is one, else 1 |
| PokemonsView.RequestFor | src/pages/PokemonsView.tsx:30-31 | infinite mode requests `(ITEMS_PER_LOAD, offset)`; any other mode requests `(ITEMS_PER_PAGE, (currentPage-1)*ITEMS_PER_PAGE)`, an offset that is never negative for a page from 1 on |
| PokemonsView.PageOffsets | src/pages/PaginationView.tsx:27-30 | page 1 is at offset 0, and consecutive pages are `ITEMS_PER_PAGE` apart |
| PokemonsView.CeilDiv | src/pages/PokemonsView.tsx:82-85 | `Math.ceil(n / d)`: the least `q` with `q * d >= n` |
| PokemonsView.TotalPages | src/pages/PokemonsView.tsx:82-85 | 0 without data; with data, the pages cover every record, the last page starts before the count, and there are 0 pages iff the count is 0 |
| PokemonsView.TotalPagesExample | src/pages/PaginationView.tsx:34-37 | 1300 records in pages of 16 make 82 pages; without data there are 0 |
| PokemonsView.EveryRecordOnAPage | src/pages/PokemonsView.tsx:31 | every record index below the count falls on a page within `1..totalPages`, inside that page's offset range |
| PokemonsView.HasMore | src/pages/PokemonsView.tsx:87-90 | without data `hasMore` holds; with data it holds iff the next load-more offset `offset + ITEMS_PER_LOAD` is below the count |
| PokemonsView.PrefetchKey | src/pages/PokemonsView.tsx:92-106 | a prefetch is only issued when page `currentPage + 1` exists, and its key is the list key of that page's offset |
| PokemonsView.PrefetchIsNextPageRequest | src/pages/PokemonsView.tsx:92-106 | a prefetch is issued iff in pagination mode, with data, and `currentPage + 1 <= totalPages`; its key is the list key of page `currentPage + 1`'s request |
| PokemonsView.ListArea | src/pages/PokemonsView.tsx:167-211 | the error screen shows iff there is an error; a skeleton only while loading, sized to one load or one page; accumulated cards only in infinite mode; the fetched page and the page count only in another mode with data; nothing only in another mode, not loading, without data |
| PokemonsView.ErrorWins | src/pages/PokemonsView.tsx:167-171 | an error hides everything else; the text is the error's message, or "Failed to load Pokémon" for a non-`Error` |
| PokemonsView.IsInitialLoading | src/pages/PokemonsView.tsx:110-113 | only while loading; in pagination mode exactly while loading; in any other mode exactly while loading with nothing accumulated |
| PokemonsView.InfiniteArea | src/pages/PokemonsView.tsx:110-113 | in infinite mode the skeleton (one load of cards) shows iff loading with nothing accumulated; otherwise the accumulated cards show with `hasMore` and the loading flag |
| PokemonsView.PageArea | src/pages/PokemonsView.tsx:192-211 | in any other mode the skeleton (one page of cards) shows iff loading; otherwise the fetched page and the pager show with data, and nothing shows without it; accumulated cards never show |
| PokemonsView.AddIds | src/pages/PokemonsView.tsx:47-51 | the `forEach(add)` loop yields the old set plus the id of every card |
| PokemonsView.ViewState.constructor | src/pages/PokemonsView.tsx:18-28 | mount: the mode from the URL, an empty list and id set, offset 0, the initial page; the invariant holds |
| PokemonsView.ViewState.ReceiveData | src/pages/PokemonsView.tsx:41-54 | in infinite mode with data, the unseen records are appended in page order and their ids added; otherwise nothing changes; `ids(allPokemon) == loadedIds` is kept, and so is no-duplicates when the page has none |
| PokemonsView.ViewState.SetViewParam | src/pages/PokemonsView.tsx:56-62 | entering `'pagination'` clears the list, the ids and the offset but keeps the current page; entering any other mode keeps everything |
| PokemonsView.ViewState.SwitchToInfinite | src/pages/PokemonsView.tsx:120-122 | the mode becomes `'infinite'`; the list, ids, offset and page are kept |
| PokemonsView.ViewState.SwitchToPagination | src/pages/PokemonsView.tsx:124-126 | the mode becomes `'pagination'` and the page is kept; coming from another mode, the list, ids and offset are cleared; already in pagination, they are kept |
| PokemonsView.ViewState.LoadMore | src/pages/PokemonsView.tsx:64-66 | the offset grows by exactly `ITEMS_PER_LOAD`, and nothing else changes |
| PokemonsView.ViewState.ChangePage | src/pages/PokemonsView.tsx:68-71 | the current page becomes the given page, unclamped |
| PokemonsView.ViewState.Retry | src/pages/PokemonsView.tsx:73-80 | in infinite mode the offset, list and ids are reset; in any other mode the state is unchanged |
| PokemonsView.SwitchAwayAndBack | src/pages/PokemonsView.tsx:56-62 | switching from infinite to pagination and back leaves an empty list at offset 0, and keeps the current page |
| PokemonsView.ReceiveTwice | src/pages/PokemonsView.tsx:43-45 | a page delivered a second time adds nothing, so the merge effect settles after one run |
| Reconciliation.Unseen | src/pages/PokemonsView.tsx:43 | the filter keeps only cards of the page whose id is not loaded |
| Reconciliation.IdsAppend | src/pages/PokemonsView.tsx:46-51 | the ids of an appended list are the union of the two parts' ids |
| Reconciliation.UnseenAppend | src/pages/PokemonsView.tsx:43 | the filter keeps page order: filtering a concatenation concatenates the filtered parts |
| Reconciliation.UnseenCounts | src/pages/PokemonsView.tsx:43 | each card is kept as often as it occurs in the page when its id is unseen, and dropped otherwise |
| Reconciliation.AllUnseenKept | src/pages/PokemonsView.tsx:43 | a page with no loaded id passes the filter whole |
| Reconciliation.DuplicatesWithinPageKept | src/pages/LoadMoreView.tsx:25 | two cards of one page with the same unseen id are both appended: de-duplication is only against earlier pages |
| Reconciliation.AllSeenDropped | src/pages/PokemonsView.tsx:43-45 | a page whose ids are all loaded contributes nothing |
| Reconciliation.MergeSettles | src/pages/PokemonsView.tsx:43-54 | after one merge, the same page's records are all loaded |
| Reconciliation.UnseenDistinct | src/pages/PokemonsView.tsx:43 | filtering a page without duplicates leaves none |
| Reconciliation.MergeKeepsInvariant | src/pages/PokemonsView.tsx:43-52 | from a duplicate-free list whose ids are `loadedIds`, appending a duplicate-free page's unseen records keeps both properties |
| Reconciliation.DistinctCount | src/pages/PokemonsView.tsx:47-51 | a duplicate-free list has as many ids as cards |
| Reconciliation.AccumulateCountsEveryIdOnce | src/pages/LoadMoreView.tsx:23-36 | over any run of duplicate-free pages, the accumulated list holds exactly one card per id ever seen |
| LoadMoreView.InitialLoading | src/pages/LoadMoreView.tsx:54-57 | initial loading exactly while loading with the accumulated list empty |
| LoadMoreView.Area | src/pages/LoadMoreView.tsx:87-112 | the error screen iff there is an error; else the skeleton of one load iff initially loading; else the accumulated cards with `hasMore` and the loading flag |
| LoadMoreView.InitialLoadingAgrees | src/pages/LoadMoreView.tsx:54-57 | the page's `isInitialLoading` (loading with nothing accumulated) is the combined page's in infinite mode |
| LoadMoreView.AreaAgrees | src/pages/LoadMoreView.tsx:87-112 | the page renders what the combined page renders in infinite mode |
| LoadMoreView.RequestAgrees | src/pages/LoadMoreView.tsx:17 | the page requests one load at its offset, as the combined page does in infinite mode |
| LoadMoreView.Arrive | src/pages/LoadMoreView.tsx:23-36 | an arrival appends the unseen records behind the earlier ones, records their ids, keeps the invariant, and leaves the mode, offset and page alone |
| LoadMoreView.ArriveAll | src/pages/LoadMoreView.tsx:23-36 | from an empty list, a series of arrivals leaves the page's list equal to `Accumulate` of the pages, its id set equal to every id seen, and one card per id seen; mode, offset and page unchanged |
| LoadMoreView.LoadMoreTimes | src/pages/LoadMoreView.tsx:38-40 | after `n` presses from mount the offset is `n * ITEMS_PER_LOAD`; only the offset may change |
| LoadMoreView.RetryFromScratch | src/pages/LoadMoreView.tsx:42-47 | retry always resets the offset to 0, and the list and ids to empty; the mode and page are kept |
| PaginationView.Area | src/pages/PaginationView.tsx:76-97 | the error screen iff an error; else the skeleton of one page iff loading; else the fetched page with the current page and the page count iff there is data; else nothing |
| PaginationView.AreaAgrees | src/pages/PaginationView.tsx:76-97 | error, then loading, then data, then nothing: the page renders what the combined page renders in pagination mode |
| PaginationView.RequestAgrees | src/pages/PaginationView.tsx:27-32 | the request is one page at `(currentPage-1)*ITEMS_PER_PAGE` |
| PaginationView.GoToPage | src/pages/PaginationView.tsx:39-42 | the page becomes the given page and the next request is for that page; only the page may change |
| PaginationView.RetryKeepsPage | src/pages/PaginationView.tsx:44-46 | retry leaves the mode, the current page and all other state unchanged |
| PokemonApi.FetchApi | src/api/pokemon.ts:17-44 | the result is the parsed body iff the server answered in 200..299 and the body parsed; a rejected `fetch` or a body that failed to parse is reported through the catch clause |
| PokemonApi.Classify | src/api/pokemon.ts:31-43 | the catch clause: an `ApiError` is rethrown unchanged; a `TypeError` becomes the status-less network error; another `Error` keeps its message with no status; anything else gets "An unexpected error occurred" |
| PokemonApi.NonOkResponse | src/api/pokemon.ts:21-27 | a response outside 200..299 fails with its status, its status text, and "API request failed: " + status text |
| PokemonApi.OkResponse | src/api/pokemon.ts:29-30 | an ok response whose body parsed yields that body |
| PokemonApi.StatusOnlyFromServer | src/api/pokemon.ts:17-44 | a failure carries a status iff the server answered outside 200..299, and then it is that status |
| PokemonApi.ListEndpoint | src/api/pokemon.ts:46-51 | every list endpoint starts with `/pokemon?limit=` |
| PokemonApi.ListEndpointDefaults | src/api/pokemon.ts:46-51 | the list endpoint defaults to limit 16 and offset 0 |
| PokemonApi.ListEndpointInjective | src/api/pokemon.ts:50 | distinct (limit, offset) pairs give distinct list endpoints |
| PokemonApi.DetailEndpoint | src/api/pokemon.ts:53-57 | the detail endpoint is `/pokemon/` followed by the name as given, or by digits reading back as a non-negative number (after a `-` for a negative one) |
| PokemonApi.TrailingDigitCount | src/api/pokemon.ts:60 | the count covers a digit run at the end, and it is maximal |
| PokemonApi.IdFromWellFormedUrl | src/api/pokemon.ts:59-61 | a URL ending `/pokemon/<digits>`, with or without a trailing `/`, gives the digits' decimal value, so leading zeros drop out |
| PokemonApi.MatchIsPattern | src/api/pokemon.ts:60 | a match means some suffix is `/pokemon/`, one or more digits, an optional `/`, then the end |
| PokemonApi.IdFromUrl | src/api/pokemon.ts:59-61 | a URL with no suffix the pattern accepts (missing `/pokemon/`, a non-digit segment, trailing text) gives 0 |
| PokemonApi.SpriteUrl | src/api/pokemon.ts:64-66 | the URL is the artwork prefix, then digits that read back as the id, then `.png` |
| PokemonApi.SpriteUrlInjective | src/api/pokemon.ts:64-66 | distinct ids give distinct sprite URLs |
| PokemonApi.DetailEndpointRoundTrip | src/api/pokemon.ts:53-61 | the id reads back out of `base + /pokemon/<id>` |
| Decimal.NatToString | src/api/pokemon.ts:65 | the decimal text is digits only, has no leading zero except for 0, and reads back as the number |
| Decimal.NatToStringInjective | src/api/pokemon.ts:65 | distinct numbers have distinct decimal texts |
| Decimal.LeadingZeroIgnored | src/api/pokemon.ts:61 | a leading zero does not change a digit run's value |
| Decimal.ZerosIgnored | src/pages/DetailPage.tsx:39 | any number of leading zeros leaves a digit run's value unchanged |
| Text.UpperChar | src/pages/DetailPage.tsx:44 | ASCII lower-case letters map to upper case; every other character is kept |
| Text.Capitalize | src/pages/DetailPage.tsx:44 | same length; the first character is upper-cased and the rest kept; the empty string stays empty |
| Text.PadStart | src/pages/DetailPage.tsx:39 | the result is `width` long or as long as `s`, whichever is more; it ends with `s` and is filled before it |
| Text.PadDigitsKeepsValue | src/pages/DetailPage.tsx:39 | zero-padding a digit run keeps it a digit run of the same value |
| Text.Split | src/pages/DetailPage.tsx:180 | one or more pieces, none containing the separator |
| Text.JoinSplit | src/pages/DetailPage.tsx:180-182 | joining the pieces with the separator gives the input back |
| Text.ReplaceFirst | src/pages/DetailPage.tsx:211 | replacing keeps the length |
| Text.ReplaceFirstAt | src/pages/DetailPage.tsx:211 | only the first occurrence is replaced; every other character, later occurrences included, is kept |
| PokemonListQuery.ToCards | src/hooks/usePokemonList.ts:9-16 | one card per entry, in order: the id is read from the entry's URL, the name is copied, and the sprite is that id's URL |
| PokemonListQuery.ToCardsAppend | src/hooks/usePokemonList.ts:9-16 | the transform is a map: it commutes with concatenation |
| PokemonListQuery.Transform | src/hooks/usePokemonList.ts:18-23 | the cards of the results; `count`, `next` and `previous` pass through |
| PokemonListQuery.WrapListFailure | src/hooks/usePokemonList.ts:24-29 | an `ApiError` propagates unchanged; anything else becomes `Error('Failed to load Pokémon list')` |
| PokemonListQuery.FetchAndTransform | src/hooks/usePokemonList.ts:5-30 | the list query fails iff `fetchApi` fails or the body cannot be transformed, and every failure is an `ApiError` or `Error('Failed to load Pokémon list')` |
| PokemonListQuery.FetchAndTransformOutcome | src/hooks/usePokemonList.ts:5-30 | a `fetchApi` failure reaches the caller as the same `ApiError`; a well-shaped body becomes its transform; a body the transform cannot read becomes `Error('Failed to load Pokémon list')` |
| PokemonListQuery.ListRetry | src/hooks/usePokemonList.ts:39-44 | a retry happens only below two failures, and never for an `ApiError` with status in [400, 500) |
| PokemonListQuery.ListNoRetryOnClientError | src/hooks/usePokemonList.ts:39-42 | never a retry for an `ApiError` with status in [400, 500) |
| PokemonListQuery.ListRetryOtherwise | src/hooks/usePokemonList.ts:39-44 | any other failure is retried iff `failureCount < 2` |
| PokemonListQuery.ListQueryKey | src/hooks/usePokemonList.ts:34 | the key is `['pokemon', 'list', limit, offset]` |
| PokemonListQuery.ListQueryKeyInjective | src/hooks/usePokemonList.ts:34 | each (limit, offset) pair has its own cache key |
| PokemonDetailQuery.DetailRetry | src/hooks/usePokemonDetail.ts:10-15 | a retry happens only below two failures, and never for a 404 `ApiError` |
| PokemonDetailQuery.DetailRetryRule | src/hooks/usePokemonDetail.ts:10-15 | no retry for a 404 `ApiError`; every other error, other 4xx included, is retried iff `failureCount < 2` |
| PokemonDetailQuery.ListRetryStricter | src/hooks/usePokemonDetail.ts:10-15 | whenever the list query retries, the detail query retries too |
| PokemonDetailQuery.Enabled | src/hooks/usePokemonDetail.ts:16 | the query is enabled iff the route id is non-empty |
| PokemonDetailQuery.DetailQueryKey | src/hooks/usePokemonDetail.ts:6 | the key is `['pokemon', 'detail', id]`, its last part the route id |
| PokemonDetailQuery.DetailQueryKeyInjective | src/hooks/usePokemonDetail.ts:6 | distinct route ids never share a detail cache entry |
| PokemonDetailQuery.DetailAndListKeysDiffer | src/hooks/usePokemonDetail.ts:6 | a detail key never equals a list key |
| DetailPage.FormattedId | src/pages/DetailPage.tsx:38-41 | `#` followed by at least 4 digits that read back as the id; empty without a record |
| DetailPage.FormattedIdExample | src/pages/DetailPage.tsx:39 | id 25 is shown as `#0025` |
| DetailPage.FormattedName | src/pages/DetailPage.tsx:43-46 | the name with its first character upper-cased and the rest kept, same length; empty without a record |
| DetailPage.Measure | src/pages/DetailPage.tsx:53-61 | `"0"` without a record; otherwise digits, a dot and a digit that read back as the field in tenths |
| DetailPage.Tenths | src/pages/DetailPage.tsx:53-61 | a measure of `h` tenths is digits reading back as `h div 10`, a dot, and the digit `h mod 10` |
| DetailPage.TenthsInjective | src/pages/DetailPage.tsx:53-61 | different measures have different texts |
| DetailPage.TenthsExamples | src/pages/DetailPage.tsx:53-56 | 7 is shown as `0.7`, and 69 as `6.9` |
| DetailPage.CapitalizeAll | src/pages/DetailPage.tsx:181 | the number of words is kept, and word `i` of the result is word `i` capitalised |
| DetailPage.StatLabel | src/pages/DetailPage.tsx:179-182 | the label has the name's length; a hyphen becomes a space; the first character and each one after a hyphen is upper-cased; every other is kept |
| DetailPage.JoinedIsRelabel | src/pages/DetailPage.tsx:179-182 | split, capitalise and join equal the character-by-character reference |
| DetailPage.Relabel | src/pages/DetailPage.tsx:179-182 | the reference relabelling keeps the length |
| DetailPage.RelabelAt | src/pages/DetailPage.tsx:179-182 | each character of the reference is a space for a hyphen, upper-cased at a word start, and kept otherwise |
| DetailPage.AbilityLabel | src/pages/DetailPage.tsx:211 | the label has the name's length; only the first hyphen becomes a space; every other character, later hyphens included, is kept |
| DetailPage.Is404 | src/pages/DetailPage.tsx:63-66 | true iff the error is an `ApiError` with status 404; such an error is a client error the detail query never retries |
| DetailPage.Screen | src/pages/DetailPage.tsx:68-111 | the spinner shows iff loading; the details show iff not loading, with no error and a record; an error panel offers Try Again iff the error is not a 404 |
| DetailPage.ErrorPanelRules | src/pages/DetailPage.tsx:63-104 | a 404 shows "Pokémon Not Found", names the route id, and hides Try Again; any other error shows "Oops! Something went wrong" and the error's message (or the fallback), with Try Again |
| DetailPage.DetailsRules | src/pages/DetailPage.tsx:111-214 | the details carry the formatted name, id and measures and one label per stat and ability, in order |
| DetailPage.NotFoundIsFinal | src/pages/DetailPage.tsx:63-104 | a 404 is neither retried by the query nor offered a retry button |
| DetailPage.PreloadSprite | src/pages/DetailPage.tsx:18-32 | a record with a missing or empty sprite URL marks the image as failed; otherwise the flags are left to the load events |
| PokemonCardComponent.FormatId | src/components/PokemonCard.tsx:13 | `#`, then at least `width` digits that read back as the id; an id of `width` digits or more is written unpadded |
| PokemonCardComponent.FormatIdInjective | src/components/PokemonCard.tsx:13 | distinct ids have distinct formatted ids |
| PokemonCardComponent.CardTextExamples | src/components/PokemonCard.tsx:13-14 | `pikachu` is shown as `Pikachu`, 25 as `#025`, and 1025 as `#1025` |
| PokemonCardComponent.CardId | src/components/PokemonCard.tsx:13 | `#` and at least three digits reading back as the card's id, unpadded from 100 on |
| PokemonCardComponent.CardName | src/components/PokemonCard.tsx:14 | the name with its first character upper-cased and the rest kept |
| PokemonCardComponent.CardLink | src/components/PokemonCard.tsx:17 | the link is `/pokemon/` followed by text from which the id pattern reads the card's id back |
| PokemonCardComponent.CardLinkOpensDetail | src/components/PokemonCard.tsx:17 | the route parameter is the id's decimal text, and the detail query fetches the same endpoint as for the number |
| PokemonCardComponent.ImageBox | src/components/PokemonCard.tsx:19-38 | the placeholder shows iff not loaded and not failed; the fallback iff failed; the opaque image iff loaded and not failed; exactly one of the three holds |
| PokemonCardComponent.ImageState.constructor | src/components/PokemonCard.tsx:10-11 | both flags start false, so the placeholder shows |
| PokemonCardComponent.ImageState.OnLoad | src/components/PokemonCard.tsx:35 | a load sets `loaded` and removes the placeholder |
| PokemonCardComponent.ImageState.OnError | src/components/PokemonCard.tsx:36 | an error sets `errored`, and the fallback replaces the image |
| PokemonCardComponent.ErrorIsFinal | src/components/PokemonCard.tsx:24-38 | after an error, no later load brings the image back |

## Left out

- Network I/O: `fetch` and `response.json()` are an abstract `FetchOutcome` (a status with a parsed or failed body, or a rejection).
- JSON shape checking is left out: the list body is either well-shaped or `Malformed`, and a malformed one stands for every body on which `data.results.map` or `getPokemonIdFromUrl` throws a `TypeError`. The detail record is taken as well-shaped.
- The API base URL from the build environment is an arbitrary string prefix.
- react-query's own machinery is left out: caching, staleness and garbage-collection timers, de-duplication, `keepPreviousData`, running the retries and the prefetch. Only the predicates, the keys and the prefetch decision are modelled.
- React rendering and effect scheduling are left out. Effects are synchronous methods, and the screens are datatypes that name what is shown; markup, styling and text decoration are left out.
- `sessionStorage` is left out. The saved page is an optional integer rather than `parseInt` of stored text, and writing the page back is not modelled.
- `window.scrollTo` is left out.
- Sprite preloading through an `Image` object is not modelled; only its missing-URL branch is.
- The stat bar percentage is floating point, and is left out.
- `TYPE_COLORS` and the type badges are left out: the table lives in a file that is not part of this model.
- Base experience is printed as it is, so it is not modelled.
- Upper-casing covers ASCII letters only, not Unicode case mapping.
- `IdFromUrl` reads a digit run as an exact natural. For runs beyond 2^53, `parseInt` would lose precision.
- `Tenths` is exact integer div/mod. JavaScript's `toFixed(1)` agrees only for whole numbers below 10^21, and heights and weights are whole numbers.
- Routing, `App.tsx`, `main.tsx`, the error boundary, the grid, skeleton, spinner, button and error-message components are pure wiring and are left out.
- `LoadMoreView` and `PaginationView` are not separate classes; they share `ViewState` with the mode fixed. `PaginationView` never prefetches, and its request and screen are the combined page's in pagination mode.
