/** What the search page derives from the infinite-loading hook's report: the
    issue list it renders and the flags that drive the "load more" button.

    The hook itself is not part of this model. Its report is an input: `data`
    is absent until something has been fetched, and otherwise holds one slot
    per page, a slot being undefined while its page has not arrived; reading
    past the end of `data` also gives undefined. */
module ResultView {
  import opened Api
  import opened SearchKey

  /** The hook's report at one render. */
  datatype Loader = Loader(data: Option<seq<Option<Page>>>, isLoading: bool, isValidating: bool)

  /** What the "load more" button says. */
  datatype ButtonLabel = Loading | NoMoreIssues | LoadMore

  /** Slot `i` of the pages, undefined outside the sequence. */
  function Slot(pages: seq<Option<Page>>, i: int): Option<Page> {
    if 0 <= i < |pages| then pages[i] else None
  }

  /** Page `i` is present in `data`. */
  predicate Arrived(data: Option<seq<Option<Page>>>, i: int) {
    data.Some? && Slot(data.value, i).Some?
  }

  /** Every slot of `pages` holds a page. */
  predicate AllLoaded(pages: seq<Option<Page>>) {
    forall i :: 0 <= i < |pages| ==> pages[i].Some?
  }

  /** Every page holds exactly `MaxResults` issues. */
  predicate AllFull(pages: seq<Option<Page>>) {
    forall i :: 0 <= i < |pages| ==> pages[i].Some? && |pages[i].value.issues| == MaxResults
  }

  /** The number of issues held by the loaded pages. */
  function TotalIssues(pages: seq<Option<Page>>): nat {
    if pages == [] then 0
    else (if pages[0].Some? then |pages[0].value.issues| else 0) + TotalIssues(pages[1..])
  }

  /** `pages.flatMap(page => page.issues)`: the issues of every page in order;
      an undefined slot makes the callback throw, which is `None` here. */
  function FlatMap(pages: seq<Option<Page>>): (r: Option<seq<Issue>>)
    ensures r.Some? ==> |r.value| == TotalIssues(pages)
  {
    if pages == [] then Some([])
    else match pages[0]
      case None => None
      case Some(p) =>
        match FlatMap(pages[1..])
        case None => None
        case Some(rest) => Some(p.issues + rest)
  }

  /** The flattening succeeds exactly when no slot is undefined. */
  lemma {:induction false} FlatMapDefined(pages: seq<Option<Page>>)
    ensures FlatMap(pages).Some? <==> AllLoaded(pages)
  {
    if pages != [] {
      FlatMapDefined(pages[1..]);
      if AllLoaded(pages[1..]) && pages[0].Some? {
        forall i | 0 <= i < |pages| ensures pages[i].Some? {
          if i > 0 { assert pages[i] == pages[1..][i - 1]; }
        }
      }
    }
  }

  /** The flattened list is as long as all pages together. */
  lemma {:induction false} FlatMapLength(pages: seq<Option<Page>>)
    requires AllLoaded(pages)
    ensures FlatMap(pages).Some? && |FlatMap(pages).value| == TotalIssues(pages)
  {
    if pages != [] {
      FlatMapLength(pages[1..]);
    }
  }

  /** Issue `k` of page `j` sits in the flattened list right after the issues
      of all earlier pages: the list keeps the pages' order and each page's
      own order. */
  lemma {:induction false} FlatMapAt(pages: seq<Option<Page>>, j: int, k: int)
    requires AllLoaded(pages)
    requires 0 <= j < |pages| && 0 <= k < |pages[j].value.issues|
    ensures FlatMap(pages).Some?
    ensures TotalIssues(pages[..j]) + k < |FlatMap(pages).value|
    ensures FlatMap(pages).value[TotalIssues(pages[..j]) + k] == pages[j].value.issues[k]
  {
    FlatMapLength(pages);
    FlatMapLength(pages[1..]);
    if j == 0 {
      assert pages[..0] == [];
    } else {
      FlatMapAt(pages[1..], j - 1, k);
      assert pages[..j][1..] == pages[1..][..j - 1];
    }
  }

  /** `list` holds issue `k` of page `j` right after the issues of the pages
      before `j`, for every loaded page and issue. */
  predicate KeepsPageOrder(pages: seq<Option<Page>>, list: seq<Issue>) {
    forall j, k | 0 <= j < |pages| && pages[j].Some? && 0 <= k < |pages[j].value.issues| ::
      TotalIssues(pages[..j]) + k < |list|
      && list[TotalIssues(pages[..j]) + k] == pages[j].value.issues[k]
  }

  /** Every issue of every page appears in the flattened list, at the
      position `FlatMapAt` gives. */
  lemma FlatMapOrder(pages: seq<Option<Page>>)
    requires AllLoaded(pages)
    ensures FlatMap(pages).Some? && KeepsPageOrder(pages, FlatMap(pages).value)
  {
    FlatMapDefined(pages);
    forall j, k | 0 <= j < |pages| && 0 <= k < |pages[j].value.issues|
      ensures TotalIssues(pages[..j]) + k < |FlatMap(pages).value|
      ensures FlatMap(pages).value[TotalIssues(pages[..j]) + k] == pages[j].value.issues[k]
    {
      FlatMapAt(pages, j, k);
    }
  }

  /** The rendered issue list: empty while there is no data, otherwise the
      pages' issues in order (`None` when an undefined slot makes the
      flattening throw). */
  function Issues(data: Option<seq<Option<Page>>>): (r: Option<seq<Issue>>)
    ensures data.None? ==> r == Some([])
    ensures r.Some? <==> data.None? || AllLoaded(data.value)
    ensures r.Some? && data.Some? ==> |r.value| == TotalIssues(data.value)
    ensures r.Some? && data.Some? ==> KeepsPageOrder(data.value, r.value)
  {
    match data
    case None => Some([])
    case Some(pages) =>
      FlatMapDefined(pages);
      if AllLoaded(pages) then FlatMapOrder(pages); FlatMap(pages) else FlatMap(pages)
  }

  /** A page is still being fetched: the first load, or the last requested
      slot (`size - 1`) has not arrived yet. With no data and no first load
      nothing is in flight. */
  function IsLoadingMore(l: Loader, size: nat): (r: bool)
    ensures l.isLoading ==> r
    ensures !l.isLoading && l.data.None? ==> !r
    ensures !l.isLoading && l.data.Some? ==> (r <==> size > 0 && !Arrived(l.data, size - 1))
  {
    l.isLoading || (size > 0 && l.data.Some? && Slot(l.data.value, size - 1).None?)
  }

  /** No results: there is no first page, or it holds no issue. */
  function IsEmpty(data: Option<seq<Option<Page>>>): (r: bool)
    ensures !r <==> Arrived(data, 0) && |data.value[0].value.issues| > 0
  {
    match data
    case Some(pages) => if Slot(pages, 0).Some? then |pages[0].value.issues| == 0 else true
    case None => true
  }

  /** Nothing more to fetch: no results at all, or the last page came back
      short. */
  function IsReachingEnd(data: Option<seq<Option<Page>>>): (r: bool)
    ensures r <==> (IsEmpty(data)
      || (Arrived(data, |data.value| - 1) && |data.value[|data.value| - 1].value.issues| < MaxResults))
  {
    IsEmpty(data) || match data
      case Some(pages) =>
        Slot(pages, |pages| - 1).Some? && |pages[|pages| - 1].value.issues| < MaxResults
      case None => false
  }

  /** A background revalidation of exactly the requested pages. */
  function IsRefreshing(l: Loader, size: nat): (r: bool)
    ensures r ==> l.data.Some? && |l.data.value| == size && l.isValidating
    ensures l.isValidating && l.data.Some? && |l.data.value| == size ==> r
  {
    l.isValidating && l.data.Some? && |l.data.value| == size
  }

  /** The "load more" button is disabled: a page is loading or there is
      nothing more to fetch. An enabled button implies that no first load
      runs and that a first page with issues is held. */
  predicate LoadMoreDisabled(l: Loader, size: nat)
    ensures l.isLoading || l.data.None? ==> LoadMoreDisabled(l, size)
    ensures !LoadMoreDisabled(l, size) ==>
      !IsLoadingMore(l, size) && !IsEmpty(l.data) && !IsReachingEnd(l.data)
      && Arrived(l.data, 0) && |l.data.value[0].value.issues| > 0
  {
    IsLoadingMore(l, size) || IsReachingEnd(l.data)
  }

  /** The button's text; it invites a click exactly when the button is
      enabled, and shows progress exactly while a page is loading. */
  function Label(l: Loader, size: nat): (r: ButtonLabel)
    ensures r == LoadMore <==> !LoadMoreDisabled(l, size)
    ensures r == Loading <==> IsLoadingMore(l, size)
  {
    if IsLoadingMore(l, size) then Loading
    else if IsReachingEnd(l.data) then NoMoreIssues
    else LoadMore
  }

  /** A first page with issues means the list shows them, starting with that
      page's first issue. */
  lemma NotEmptyShowsFirstPage(data: Option<seq<Option<Page>>>)
    requires !IsEmpty(data) && Issues(data).Some?
    ensures |Issues(data).value| > 0
    ensures Issues(data).value[0] == data.value[0].value.issues[0]
  {
  }

  /** An empty list of issues always comes with the empty flag. */
  lemma NoIssuesIsEmpty(data: Option<seq<Option<Page>>>)
    requires Issues(data) == Some([])
    ensures IsEmpty(data)
  {
  }

  /** Without data (no project selected yet) nothing can be loaded: the list
      is empty and the button is disabled. */
  lemma NoDataDisablesLoadMore(l: Loader, size: nat)
    requires l.data.None?
    ensures Issues(l.data) == Some([]) && IsEmpty(l.data) && IsReachingEnd(l.data)
    ensures LoadMoreDisabled(l, size) && Label(l, size) != LoadMore
  {
  }

  /** A non-empty first page together with a full last page does not reach
      the end. */
  lemma FullLastPageContinues(data: Option<seq<Option<Page>>>)
    requires data.Some? && |data.value| > 0
    requires Arrived(data, 0) && |data.value[0].value.issues| > 0
    requires Arrived(data, |data.value| - 1)
    requires |data.value[|data.value| - 1].value.issues| >= MaxResults
    ensures !IsReachingEnd(data)
  {
  }

  /** The button is enabled exactly when nothing is loading, the first page
      has issues, the last slot is full or still undefined, and the last
      requested slot has arrived. */
  lemma LoadMoreEnabledIff(l: Loader, size: nat)
    ensures !LoadMoreDisabled(l, size) <==>
      !l.isLoading && l.data.Some? && |l.data.value| > 0
      && Arrived(l.data, 0) && |l.data.value[0].value.issues| > 0
      && (Arrived(l.data, |l.data.value| - 1) ==>
            |l.data.value[|l.data.value| - 1].value.issues| >= MaxResults)
      && (size == 0 || Arrived(l.data, size - 1))
  {
  }

  /** Once one click has raised `size` past the pages held, the button is
      disabled until the new page arrives: a second click issues no second
      request. */
  lemma NoDoubleRequest(l: Loader, size: nat)
    requires !LoadMoreDisabled(l, size)
    requires l.data.Some? && |l.data.value| == size
    ensures LoadMoreDisabled(l, size + 1)
    ensures Label(l, size + 1) == Loading
  {
  }

  /** A revalidation of pages that are all held never shows as loading
      more. */
  lemma RefreshIsNotLoadingMore(l: Loader, size: nat)
    requires IsRefreshing(l, size) && !l.isLoading && AllLoaded(l.data.value)
    ensures !IsLoadingMore(l, size)
  {
  }

  /** Full pages hold `MaxResults` issues each. */
  lemma {:induction false} FullPagesTotal(pages: seq<Option<Page>>)
    requires AllFull(pages)
    ensures TotalIssues(pages) == |pages| * MaxResults
  {
    if pages != [] {
      FullPagesTotal(pages[1..]);
    }
  }

  /** The issues of two runs of pages add up. */
  lemma {:induction false} TotalIssuesAppend(a: seq<Option<Page>>, b: seq<Option<Page>>)
    ensures TotalIssues(a + b) == TotalIssues(a) + TotalIssues(b)
  {
    if a == [] {
      assert a + b == b;
    } else {
      assert (a + b)[0] == a[0] && (a + b)[1..] == a[1..] + b;
      TotalIssuesAppend(a[1..], b);
    }
  }

  /** With every page held, a page is loading more exactly when the first
      load runs or fewer pages are held than were requested: some requested
      page has not resolved yet. */
  lemma LoadingMoreMeansPageOutstanding(l: Loader, size: nat)
    requires l.data.Some? && AllLoaded(l.data.value)
    ensures IsLoadingMore(l, size) <==> l.isLoading || |l.data.value| < size
  {
  }

  /** With every page held and every page but the last full (and no page
      longer than `MaxResults`, as the endpoint promises), the list has
      reached its end exactly when the pages hold fewer issues than were
      asked for: a short final page ends the list. */
  lemma ReachingEndMeansShortfall(pages: seq<Option<Page>>)
    requires |pages| > 0 && AllLoaded(pages) && AllFull(pages[..|pages| - 1])
    requires |pages[|pages| - 1].value.issues| <= MaxResults
    ensures IsReachingEnd(Some(pages)) <==> TotalIssues(pages) < |pages| * MaxResults
  {
    var n := |pages|;
    assert pages == pages[..n - 1] + [pages[n - 1]];
    TotalIssuesAppend(pages[..n - 1], [pages[n - 1]]);
    FullPagesTotal(pages[..n - 1]);
    assert TotalIssues([pages[n - 1]]) == |pages[n - 1].value.issues|;
    if n > 1 {
      assert pages[..n - 1][0] == pages[0];
    }
  }

  /** When every page held is full, the next page is requested right after
      the last issue shown: no issue is skipped and none is fetched twice. */
  lemma NextRequestFollowsShownIssues(data: Option<seq<Option<Page>>>, q: Query)
    requires q.project.Some? && data.Some? && AllFull(data.value)
    ensures Issues(data).Some?
    ensures StartAt(|data.value|, q) == |Issues(data).value|
  {
    FullPagesTotal(data.value);
    RequestOffset(|data.value|, q);
  }
}
