# Hacker News search client: the `App` state model

This project models the state handling of the `App` component in `src/App.js`
of a small React client for the Hacker News search API, and proves what it does.
`App` keeps an in-memory cache `results`. The cache maps a search term to the hits
fetched so far for it and the last page fetched. `App` also holds the shown term
`searchKey`, the search-box text `searchTerm`, a loading flag `isLoading` and the
table's `sortKey`.

Modules, leaf first:

- `Wrappers` (`wrappers.dfy`): `Option`. `None` stands for JavaScript `null`, and for a thrown `TypeError` where that is the outcome.
- `Hits` (`hits.dfy`): the hit record, the five sort keys, and the order lodash `sortBy` compares titles, authors, comment counts and points with.
- `Sorts` (`sorts.dfy`): the `SORTS` table. `SortBy` is a stable ascending sort. It is proved sorted, a permutation and order-preserving within every tie class, and proved to be the only list with those three properties. The descending entries are `Reverse(SortBy(..))`.
- `Store` (`store.dfy`): cache entries and the pure operations on the cache. These are the merge of a fetched page, the dismiss filter, the cache-hit test, and the page and list that `render` derives.
- `Query` (`query.dfy`): the URL constants, the query URL, and a decoder proved to invert it.
- `AppComponent` (`app.dfy`): class `App`, whose fields are the component's state and whose methods are its handlers. Each method's `ensures` gives the new state in terms of the `Store` and `Query` functions. A ghost field `merged` records every hit merged under each key. The invariant `Valid()` says each cached list is an order-preserving sublist of it: hits are appended or dismissed, never reordered. Three client methods at the end show what a caller can conclude from the contracts. They cover mounting followed by a resubmit, a failed first fetch, and a late response filed under the term shown when it arrives.

A fetch is modelled as the URL it requests, which the fetching method returns. The response arrives through a separate call: `SetSearchTopstories` on success, `OnNetworkError` on failure. The network itself, the clock and the order in which several outstanding responses arrive are outside the model.

Behaviour of the code a reader might not expect:

- There is no reverse toggle. `onSort` only overwrites `sortKey`.
- COMMENTS and POINTS are `sortBy(..).reverse()`. Hits with equal counts therefore come out in reverse of their input order, not in input order (`Sorts.SortDescending`).
- A failed fetch leaves `isLoading` set, because the catch handler only logs.
- Submitting a term that is already cached never fetches. So resubmitting does not append page 0 a second time. Duplicates arise only when a response is filed under a term other than the one fetched, or when a page is fetched twice.
- Dismiss removes every hit carrying the id, not just one.

## Model

| member | source | states |
|---|---|---|
| `Sorts.Reverse` | src/App.js:19-20 | `.reverse()`: same length, position `i` holds input position `len-1-i` |
| `Sorts.SortByMultiset` | src/App.js:17-20 | lodash `sortBy` returns a permutation of its input |
| `Sorts.SortByIsStableSort` | src/App.js:17-18 | `sortBy(list, f)` is sorted ascending by `f`, a permutation, and keeps every tie class in input order |
| `Sorts.StableSortUnique` | src/App.js:17-18 | any list that is sorted by `f`, a permutation and tie-order preserving equals `SortBy`, so the stable-sort contract fixes the result |
| `Sorts.SortIsPermutation` | src/App.js:15-22 | every `SORTS` entry returns a permutation of the list; NONE returns the list itself |
| `Sorts.SortAscending` | src/App.js:17-18 | TITLE and AUTHOR yield the stable ascending sort by that field |
| `Sorts.SortDescending` | src/App.js:19-20 | COMMENTS and POINTS yield the reverse of the stable ascending sort: non-increasing, a permutation, every tie class reversed |
| `Store.Without` | src/App.js:104-105 | the filter keeps an order-preserving sublist in which no hit carries the id; a list without the id comes back unchanged |
| `Store.WithoutCounts` | src/App.js:104-105 | every hit with another id keeps all its occurrences; hits with the id keep none |
| `Store.WithoutAppend` | src/App.js:104-105 | filtering a concatenation filters each part |
| `Store.Dismiss` | src/App.js:99-116 | dismiss fails exactly when the shown key has no entry; otherwise only that entry changes, to its filtered hits with the same page |
| `Store.DismissAbsentId` | src/App.js:99-116 | dismissing an id no cached hit carries leaves the cache as it was |
| `Store.DismissTwice` | src/App.js:99-116 | dismissing an id a second time changes nothing more, whether or not the shown key has an entry |
| `Store.Merge` | src/App.js:56-75 | the merged entry holds the old hits (none if absent) followed by the new ones and the new page; the key set gains the key; every other entry is kept |
| `Store.MergeAccumulates` | src/App.js:59-75 | two merges under one key keep the hits of both pages in arrival order, duplicates included, and the later page |
| `Store.DismissAfterMerge` | src/App.js:99-116 | dismissing after a merge filters the old hits and the new page alike, and the page is the merged one |
| `Store.NeedsToSearchBeforeFirstResponse` | src/App.js:50-52 | before the first response the code as written throws where a fetch is needed |
| `Store.NeedsToSearch` | src/App.js:50-52 | a fetch is needed exactly when nothing is cached for the term; this agrees with the code wherever the code does not throw |
| `Store.DisplayedPage` | src/App.js:137 | the shown page is the stored page of the shown key, or 0 without an entry |
| `Store.DisplayedList` | src/App.js:138 | the shown list is the stored hits of the shown key, or empty |
| `Store.DisplayAfterMerge` | src/App.js:137-138 | after a merge the shown list is the old list plus the page's hits and the shown page is the page's; other keys show what they showed |
| `Query.NatToDecimal` | src/App.js:83 | the numeral of a page is a non-empty digit string, with a leading `0` only for zero |
| `Query.DecimalRoundTrip` | src/App.js:83 | the numeral reads back as the number it was made from |
| `Query.IntToDecimal` | src/App.js:83 | an integer page prints as its digits, with `-` in front when negative |
| `Query.QueryUrl` | src/App.js:9-13 | the URL starts with the search prefix, holds the term verbatim right after `query=` and ends with the hits-per-page parameter |
| `Query.UrlConstants` | src/App.js:7-13 | the fixed URL parts are `https://hn.algolia.com/api/v1/search?query=`, `&page=` and `&hitsPerPage=100` |
| `Query.QueryUrlRoundTrip` | src/App.js:83 | decoding the URL gives back the term and the page, so the unencoded term loses no information |
| `Query.QueryUrlInjective` | src/App.js:83 | two requests with the same URL have the same term and page |
| `AppComponent.App.constructor` | src/App.js:26-35 | the initial state: no cache (`null`), empty shown key, `redux` in the box, not loading, sort NONE |
| `AppComponent.App.OnSort` | src/App.js:46-48 | only `sortKey` changes, to the key given |
| `AppComponent.App.FetchSearchTopstories` | src/App.js:80-91 | only `isLoading` changes, to true; the URL requested decodes to the term and page |
| `AppComponent.App.SetSearchTopstories` | src/App.js:54-78 | the cache becomes the merge of the response under the `searchKey` current at arrival; `isLoading` becomes false; the sublist invariant is kept |
| `AppComponent.App.OnNetworkError` | src/App.js:85-90 | a failed fetch changes nothing, so `isLoading` stays true |
| `AppComponent.App.ComponentDidMount` | src/App.js:93-97 | the shown key becomes the box text and page 0 of it is fetched |
| `AppComponent.App.OnDismiss` | src/App.js:99-116 | with an entry for the shown key the cache becomes its dismiss; without one nothing changes (the source throws) |
| `AppComponent.App.OnSearchChange` | src/App.js:118-120 | only the box text changes |
| `AppComponent.App.OnSearchSubmit` | src/App.js:122-132 | the shown key becomes the box text; page 0 is fetched exactly when nothing is cached for it; otherwise the loading flag and the cache are as before |
| `AppComponent.App.More` | src/App.js:155-159 | "More", which is shown only while nothing is loading, fetches the shown key at the shown page plus one, cached or not |
| `AppComponent.App.Rows` | src/App.js:241 | the table rows are a reordering of the shown list, and the list itself under NONE |

## Findings

| source | as written | input that shows it | evidently intended | confidence | as-written member | corrected member |
|---|---|---|---|---|---|---|
| src/App.js:50-52 | `needsToSearchTopstories` reads `this.state.results[searchTerm]` while `results` may still be `null` | mount; the first fetch is still pending or has failed; type `react`; submit: a `TypeError`, no fetch | a submit fetches whenever nothing is cached for the term, and a `null` cache holds nothing | not executed; high | `Store.NeedsToSearchBeforeFirstResponse`, about the definition `Store.NeedsToSearchAsWritten` | `Store.NeedsToSearch`, used by `AppComponent.App.OnSearchSubmit` |

## Left out

- The `fetch` call, the HTTP status check, JSON parsing and `console.log` are network I/O and foreign calls. A fetch is the URL returned, and its outcome is a later call to `SetSearchTopstories` or `OnNetworkError`.
- Several outstanding responses arriving in some order (a submit while a fetch is pending) are asynchronous interleaving. Each arrival is one `SetSearchTopstories` call, filed under the key shown at that moment.
- React rendering and markup are view glue without state logic. This covers the `Search`, `Table` row, `Button`, `Loading`, `withLoading`/`ButtonWithLoading` and `Sort` components, `propTypes`, input focus and `event.preventDefault()`.
- `setState` batching is left out. Every update is applied in program order. No handler of `App` reads a value that a pending update of the same handler would change.
- lodash `sortBy` internals are left out: comparing mixed, `undefined`, `null` or `NaN` field values, and its index-based tie-break. `SortBy` is specified by what it promises: a stable ascending sort.
- `Hits.TextLeq`: string order is lexicographic over Dafny characters (Unicode scalar values). JavaScript compares UTF-16 code units, and the two orders differ only between characters above U+FFFF and those in U+E000-U+FFFF.
- `results` is a plain dictionary. A term equal to an inherited object property (`constructor`, `toString`) would, in the source, read that property instead of a missing entry. That is not modelled.
- `Query.IntToDecimal`: pages are integers. The exponent notation JavaScript prints for numbers of 10^21 and more, and non-integer pages, are not modelled.
- `SORTS[sortKey]` with a key outside the five constants is not representable, because `SortKey` is an enumeration and `onSort` is only called with those five.
- The as-written behaviour of `onSearchSubmit` while `results` is `null` is modelled only by `Store.NeedsToSearchAsWritten` and `Store.NeedsToSearchBeforeFirstResponse`, not by the class (see Findings). In the source it sets `searchKey` and then throws.
