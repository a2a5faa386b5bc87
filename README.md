# Issue search page: pagination and query state

A model of the search page of a small web client for a Jira-like issue
tracker (`src/app/page.tsx`). The page holds six query cells (project,
filter, sort field, sort direction, advanced mode, search text), builds one
cache key per result page from them, turns each key into a search request of
25 issues, and derives from the infinite-loading hook's report the rendered
issue list and the flags behind the "load more" button.

- `api.dfy` (module `Api`): the values involved: opaque project, filter and
  sort-field ids, issues, pages, the query, the page key and the search
  request, and the constant page size 25.
- `search_key.dfy` (module `SearchKey`): the page-key function and the
  request builder, with the lemmas that keys identify their query and page
  and that consecutive pages ask for adjacent, non-overlapping windows.
- `result_view.dfy` (module `ResultView`): the derived list and flags, as
  functions of the hook's report (`data`, `isLoading`, `isValidating`) and
  the requested page count `size`, with the lemmas relating them.
- `search_page.dfy` (module `SearchPageState`): the page's mutable state as
  a class whose methods are the event handlers.

The hook's `data` is `Option<seq<Option<Page>>>`: absent before anything is
fetched, otherwise one slot per page, where `None` is an undefined slot;
indexing past the end also reads as undefined. JavaScript truthiness is
written out: `size > 0 && data && …` is false when `data` is absent.

`data.flatMap((page) => page.issues)` reads `.issues` of every slot, so an
undefined slot inside `data` would make it throw; `ResultView.Issues` returns
`None` for that case and the concatenation of all pages otherwise.

## Model

| member | source | states |
|---|---|---|
| SearchKey.GetKey | src/app/page.tsx:24-27 | no key exactly when no project is set; otherwise the key's page number is the index plus one and the key gives back the query unchanged |
| SearchKey.BuildRequest | src/app/page.tsx:44-55 | the request carries the key's six query fields unchanged, asks for 25 issues with `isForge` false and an empty workspace id, and its offset is a multiple of 25 from which the page number is recovered; non-negative for page 1 onwards |
| SearchKey.KeyIdentifiesQuery | src/app/page.tsx:24-27 | equal keys come from the same page index and the same query, so pages of different queries never share a key |
| SearchKey.RequestOffset | src/app/page.tsx:51-52 | page index i is requested from offset 25·i ≥ 0 with 25 results |
| SearchKey.ConsecutiveRequests | src/app/page.tsx:51 | the offsets of consecutive pages differ by exactly 25 |
| SearchKey.WindowsPartitionOffsets | src/app/page.tsx:51-52 | every issue position lies in the window of exactly one page |
| ResultView.FlatMap | src/app/page.tsx:57 | when the flattening succeeds, its length is the sum of the page lengths (from the recursive call's own contract) |
| ResultView.FlatMapDefined | src/app/page.tsx:57 | the flattening succeeds exactly when every slot holds a page |
| ResultView.FlatMapLength | src/app/page.tsx:57 | the flattened list is as long as the pages' issue counts summed |
| ResultView.FlatMapAt | src/app/page.tsx:57 | issue k of page j is at position (issues of pages before j) + k: page order and in-page order are kept |
| ResultView.FlatMapOrder | src/app/page.tsx:57 | every issue of every page sits in the flattened list right after the issues of the pages before it |
| ResultView.Issues | src/app/page.tsx:57 | empty when there is no data; defined exactly when no slot is undefined; then its length is the sum of the page lengths and it holds every page's issues in page order and in-page order |
| ResultView.IsLoadingMore | src/app/page.tsx:58 | true whenever the first load is running; false with no data and no first load; otherwise true exactly when size > 0 and slot size−1 is undefined |
| ResultView.IsEmpty | src/app/page.tsx:59 | false exactly when the first page is present and has an issue |
| ResultView.IsReachingEnd | src/app/page.tsx:60 | true exactly when the result is empty or the last page is present with fewer than 25 issues |
| ResultView.IsRefreshing | src/app/page.tsx:61 | true exactly when revalidating with data present and as many slots as requested pages |
| ResultView.LoadMoreDisabled | src/app/page.tsx:135 | disabled whenever the first load runs or there is no data; an enabled button means nothing loads, the result is not empty or at its end, and a first page with issues is held |
| ResultView.Label | src/app/page.tsx:138 | the button reads "Load more" exactly when it is enabled and "Loading..." exactly while a page is loading |
| ResultView.NotEmptyShowsFirstPage | src/app/page.tsx:57-59 | a non-empty first page puts its first issue at the head of the list |
| ResultView.NoIssuesIsEmpty | src/app/page.tsx:57-59 | an empty list always comes with the empty flag |
| ResultView.NoDataDisablesLoadMore | src/app/page.tsx:57-60 | with no data (no project yet) the list is empty, the result empty and at its end, and the button disabled |
| ResultView.FullLastPageContinues | src/app/page.tsx:60 | a non-empty first page and a full last page do not reach the end |
| ResultView.LoadMoreEnabledIff | src/app/page.tsx:135 | the button is enabled exactly when nothing loads, the first page has issues, the last slot is full or undefined, and slot size−1 has arrived |
| ResultView.NoDoubleRequest | src/app/page.tsx:135-136 | after a click raises size past the pages held, the button is disabled and shows loading, so no second request is made |
| ResultView.RefreshIsNotLoadingMore | src/app/page.tsx:58-61 | revalidating pages that are all held never counts as loading more |
| ResultView.LoadingMoreMeansPageOutstanding | src/app/page.tsx:58 | with every slot held, loading more exactly when the first load runs or fewer pages are held than requested |
| ResultView.ReachingEndMeansShortfall | src/app/page.tsx:60 | with every page held, all but the last full and none over 25, the end is reached exactly when the pages hold fewer than 25 issues per page: a short final page ends the list |
| ResultView.FullPagesTotal | src/app/page.tsx:57 | n full pages hold 25·n issues |
| ResultView.NextRequestFollowsShownIssues | src/app/page.tsx:51-57 | with all pages full, the next page's offset equals the number of issues shown |
| SearchPageState.SearchPage.constructor | src/app/page.tsx:16-21 | starts with no project, filter "all", sort field "created", descending, advanced off, empty search and box, and the hook's initial page count; no key yet |
| SearchPageState.SearchPage.SetProject | src/app/page.tsx:94 | replaces only the project; keys exist from then on |
| SearchPageState.SearchPage.SetFilter | src/app/page.tsx:95 | replaces only the filter |
| SearchPageState.SearchPage.SetSortField | src/app/page.tsx:96 | replaces only the sort field |
| SearchPageState.SearchPage.ToggleSortAsc | src/app/page.tsx:97 | flips the sort direction and changes nothing else |
| SearchPageState.SearchPage.SetAdvanced | src/app/page.tsx:105 | replaces only the advanced flag |
| SearchPageState.SearchPage.Edit | src/app/page.tsx:108-109 | typing changes only the box's text; no key changes |
| SearchPageState.SearchPage.Blur | src/app/page.tsx:110 | commits the box's text as the search and changes nothing else |
| SearchPageState.SearchPage.KeyDown | src/app/page.tsx:111-122 | Enter commits the box's text; Escape restores the committed text in the box and leaves the search; any other key changes nothing |
| SearchPageState.SearchPage.LoadMore | src/app/page.tsx:133-136 | a click requests a page exactly when the button is enabled, then size grows by exactly one and the query is unchanged |

## Left out

- The infinite-loading hook itself (`swr/infinite`): caching, deduplication,
  revalidation, dropping stale responses, and resetting the pages and the page
  count when the key changes. Its report (`data`, `isLoading`,
  `isValidating`) is an input, and its initial page count a constructor
  parameter.
- `error` from the hook: destructured but never used by the page.
- The search call `jqlSearchPost` and the project, filter and sort-field
  lists: they belong to the API client `src/lib/api`, which is not part of
  this model. The ids are opaque, and the setters accept any id.
- The markup (lines 63-140) apart from the button's disabled state and
  label, including the select component and the "No issues found." line.
- `src/app/layout.tsx`, `src/main.tsx` and `src/components/theme-toggle.tsx`:
  framework wiring and a theme button around an external hook.
- Asynchrony: React applies state updates after the handler returns; each
  method here applies its update at once, and clicks are only guarded by
  the button's disabled state, as in the source.
