# ItemList scroll bookkeeping, modelled in Dafny

`ItemList` is a React component that renders a paginated list and loads neighbouring
pages as the user scrolls. Its caller owns the page cache (`Map<number, Data[]>`), the
current page and the page-change handshake flag `IsPageChange`. The component itself
keeps a `loading` flag, the rendered `listData`, and two refs: `pages`, a number array
appended to on each page change, and `disableScroll`, which suppresses the scroll
listener for a while after a page change.

This project models that bookkeeping, outside React:

- `ScrollRule` (scroll_rule.dfy) is the scroll listener `handleScroll` as a pure
  function `Decide`. It returns the load request (next, previous or none) and the
  page to report through `setCurrentPage`, if any. `loading` becomes true exactly
  when a request is issued.
- `PageCache` (page_cache.dfy) is the cache as its entries in Map insertion order,
  and the display-list rebuild `Flatten`.
- `NumericSort` (numeric_sort.dfy) is `pages.sort((a, b) => a - b)`. It is specified
  by insertion sort, and a lemma shows that every ascending rearrangement is that
  same sequence.
- `ItemListModel` (item_list.dfy) is the class `ItemList`. It holds the props, the
  state and the refs. There is one method per event: a parent re-render, a scroll
  event, the recorder effect, the recorder's timer expiring, the display-list effect,
  the restorer effect and the loading timer expiring. Timers are events, not time.
  `Valid()` says two things. The listener is suppressed only while a re-enable timer
  is outstanding. `pages` always holds exactly the values the recorder pushed, in
  whatever order sorting left them.
- `Wrappers` (wrappers.dfy) holds `Option`. `None` stands for JavaScript's
  `undefined`, and `At` reads an array index that may be out of range.

The model follows the code as written, including where its names suggest otherwise:

- The recorder pushes the page number `currentPage` itself, not a scroll offset. It
  does not check for duplicates, so recording page p twice leaves two entries.
  The scroll rule then compares these page numbers against pixel offsets.
- The display list, held in a variable named `sortedData`, joins the pages in cache
  insertion order, not page order (`FlattenIsNotPageOrder`).
- When no entry of `pages` is ahead of the scroll position, `findIndex` gives -1 and
  no page is reported.
- The previous-page test compares `scrollTop` with `pages[currentPage - 2]`. When
  that entry does not exist, the comparison is with `undefined` and is false.
- With no entry for the current page, the restorer calls `scrollTo({top: undefined})`,
  which leaves the position alone (`None`).

## Model

| member | source | states |
|---|---|---|
| `ScrollRule.Decide` | src/components/ItemList.tsx:33-63 | A suppressed event, or one during loading, does nothing. Next page is requested iff near the bottom (slack 5), not on the last page, and page+1 not cached. Previous page iff the bottom test fails, page > 1, `pages[page-2]` exists and is not above `scrollTop`, and page-1 not cached. A page is reported iff some entry is before the position and the first such index is not page-1. The reported page lies in 1..\|pages\| and differs from the current one. |
| `ScrollRule.FindIndexBefore` | src/components/ItemList.tsx:56-59 | `findIndex`: -1 iff no entry satisfies `scrollTop < offset + clientHeight/2`, otherwise the first index that does. |
| `ScrollRule.FirstBeforeIsUnique` | src/components/ItemList.tsx:56-59 | The first index before the scroll position is unique, so the reported page is determined. |
| `ScrollRule.AtMostOneRequestPerLoad` | src/components/ItemList.tsx:34-54 | Over any run of scroll events with no loading-timer expiry in between, at most one load request is issued. None is issued if `loading` was already set. Each event carries its own guard flag, props and `pages`, so parent re-renders, recorder runs and re-enable timers may come between them. |
| `Wrappers.At` | src/components/ItemList.tsx:49 | Indexing a JavaScript array: a value exactly when the index is in range, and then that element. |
| `PageCache.Keys` | src/components/ItemList.tsx:45 | `cache.has(k)` holds exactly for the pages of the cache's entries. |
| `PageCache.Flatten` | src/components/ItemList.tsx:88 | The rebuilt list's length is the sum of the cached page lengths. |
| `PageCache.FlattenAppend` | src/components/ItemList.tsx:88 | Flattening two runs of entries is joining their flattenings. |
| `PageCache.FlattenPlacesPage` | src/components/ItemList.tsx:88 | Each page's items appear, in their own order, right after the items of every page inserted before it. |
| `PageCache.FlattenMembership` | src/components/ItemList.tsx:88 | An item is in the display list iff some cached page holds it. |
| `PageCache.FlattenIsNotPageOrder` | src/components/ItemList.tsx:88 | A cache that received page 2 before page 1 lists page 2's items first. |
| `NumericSort.Insert` | src/components/ItemList.tsx:110 | Inserting into an ascending sequence keeps it ascending and adds exactly that element. |
| `NumericSort.Sort` | src/components/ItemList.tsx:110 | The result is ascending, a permutation of the input, and of the same length. |
| `NumericSort.SortedPermutationsEqual` | src/components/ItemList.tsx:110 | Two ascending sequences with the same elements are equal. |
| `NumericSort.SortIsTheOnlySort` | src/components/ItemList.tsx:110 | Every ascending rearrangement of `pages` is `Sort(pages)`, so the model's sort agrees with the numeric-comparator `Array.prototype.sort`. |
| `NumericSort.SortKeepsSorted` | src/components/ItemList.tsx:110 | Sorting ascending `pages` again changes nothing. |
| `ItemListModel.RecordedBoundaryIsRestored` | src/components/ItemList.tsx:76-99 | Whatever the earlier entries, if `pages` has p-1 entries when the recorder runs on page p (p > 1), the restorer then targets the entry just pushed, `Some(p)`. |
| `ItemListModel.RecordedBoundaryIsTarget` | src/components/ItemList.tsx:76-111 | If `pages` is exactly 1..p-1 in order and the recorder runs on page p, the restorer targets the entry just pushed. So does the settle step, which sorts `pages + [p]` before indexing. |
| `ItemListModel.RestoreAndSettleTargets` | src/components/ItemList.tsx:95-111 | When `pages` is already ascending, the restorer and the settle step target the same entry away from page 1. On page 1 the restorer goes to the top (`Some(0)`) while the settle step goes to `pages[0]`, so the two differ whenever `pages[0] != 0`. |
| `ItemListModel.RestoreBeforeSettleCanDiffer` | src/components/ItemList.tsx:95-111 | Before sorting, the restorer reads entries in push order: with `pages = [3, 2]` on page 2 the restorer targets 2 and the settle step 3. |
| `ItemListModel.SettledTargetsAscend` | src/components/ItemList.tsx:110-111 | For any `pages`, a later page never has a smaller settle target than an earlier one, because the settle step sorts first. |
| `ItemListModel.SuppressionCanEnd` | src/components/ItemList.tsx:77-83 | Whenever the listener is suppressed, at least one re-enable timer is pending. |
| `ItemListModel.PagesAreRecorded` | src/components/ItemList.tsx:78-110 | `pages` has one entry per recorder run and holds exactly the page numbers the recorder pushed, whatever order sorting left them in. |
| `ItemListModel.ItemList.constructor` | src/components/ItemList.tsx:27-31 | Initial state: empty list, not loading, no entries, listener enabled. |
| `ItemListModel.ItemList.ReceiveProps` | src/components/ItemList.tsx:16-26 | A parent re-render replaces the props and keeps the component's state and refs. |
| `ItemListModel.ItemList.Scroll` | src/components/ItemList.tsx:33-63 | The event's effects are `Decide` on the current state. `loading` becomes true iff a request is issued, and nothing else changes. |
| `ItemListModel.ItemList.RecordBoundary` | src/components/ItemList.tsx:74-85 | With the handshake set: appends exactly `currentPage` and keeps earlier entries, sets `disableScroll`, clears the handshake and arms one more re-enable timer. Without it: no change. |
| `ItemListModel.ItemList.DisableTimerFires` | src/components/ItemList.tsx:81-83 | Clears `disableScroll` and retires one timer. Nothing else changes. |
| `ItemListModel.ItemList.RebuildList` | src/components/ItemList.tsx:87-90 | `listData` becomes the cache's pages joined in insertion order, of length the sum of page lengths. |
| `ItemListModel.ItemList.RestoreScroll` | src/components/ItemList.tsx:92-102 | Targets 0 on page 1, otherwise `pages[currentPage-1]`, or no move when that entry is missing. |
| `ItemListModel.ItemList.LoadTimerFires` | src/components/ItemList.tsx:104-117 | Clears `loading` and leaves `pages` ascending, a permutation of its former contents with the same length. Its target is `SettleTarget` of the old `pages`: `pages[currentPage-1]` of the sorted array. |

## Left out

- DOM access: the container ref and its null checks (lines 36-37, 75-76, 93-94, 108-109) are left out. The model assumes the list element is mounted. Scroll metrics are inputs, and scroll targets are outputs.
- Attaching and detaching the listener (lines 128-136) is left out. Each `Scroll` call is one event delivered to the current handler.
- The proportional scroll effect (lines 119-126) is left out. It divides a DOM-measured height and has no decision logic. On every `currentPage` change React runs it after the restorer (lines 92-102), so its `scrollTo` replaces the restorer's. The targets `RestoreScroll` and the round-trip lemmas describe are the restorer's own calls, not where the view ends up after a page change.
- Timer durations and `clearTimeout` (lines 81-83, 106-115) are left out. Expiry is an event. The loading timer can expire only while `loading` holds. Re-arming it when a dependency changes does not change what it does.
- React scheduling is left out. Each event sees the state left by the previous one. The window in which a stale `loading` could let two scroll events both request a page before re-rendering is not modelled.
- Scroll metrics are integers. Fractional pixel values are not modelled, and `clientHeight / 2` is compared with both sides doubled.
- Rendering and JSX (lines 138-147), `console.log` (line 79) and `itemsPerPage` are left out. `itemsPerPage` appears only in dependency lists.
- The parent's callbacks are left out. `loadNextPage`, `loadPrevPage` and `setCurrentPage` are recorded only as the returned `Decision`. `setPageChange(false)` clears the handshake field directly. The parent's reaction to a request is whatever `ReceiveProps` the caller performs next.
- The `Data` item type is not part of this model. Items are a type parameter.
