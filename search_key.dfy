/** The page-key function handed to the infinite-loading hook, and the fetcher
    that turns a key into a search request. */
module SearchKey {
  import opened Api

  /** The query a key was built from (its project is necessarily set). */
  function QueryOf(k: Key): Query {
    Query(Some(k.project), k.filter, k.sortField, k.sortAsc, k.advanced, k.search)
  }

  /** The query a request carries. */
  function RequestQuery(r: SearchRequest): Query {
    Query(Some(r.project), r.filter, r.sortField, r.sortAsc, r.advanced, r.search)
  }

  /** The key of the page at zero-based `pageIndex`: no key (nothing is
      fetched) while no project is selected, otherwise the one-based page
      number followed by the six query fields. The key gives back both the
      index and the query it was made from. */
  function GetKey(pageIndex: nat, q: Query): (r: Option<Key>)
    ensures r.None? <==> q.project.None?
    ensures r.Some? ==> r.value.page - 1 == pageIndex && QueryOf(r.value) == q
  {
    match q.project
    case None => None
    case Some(p) => Some(Key(pageIndex + 1, p, q.filter, q.sortField, q.sortAsc, q.advanced, q.search))
  }

  /** The search request for a key: the key's query fields, unchanged, and
      the window of `MaxResults` issues that ends where page `k.page` ends.
      The page number can be read back from the offset. */
  function BuildRequest(k: Key): (r: SearchRequest)
    ensures RequestQuery(r) == QueryOf(k)
    ensures r.maxResults == MaxResults && !r.isForge && r.workspaceId == ""
    ensures r.startAt % MaxResults == 0 && r.startAt / MaxResults + 1 == k.page
    ensures k.page >= 1 ==> r.startAt >= 0
  {
    SearchRequest(k.project, k.filter, k.sortField, k.sortAsc, k.advanced, k.search,
                  (k.page - 1) * MaxResults, MaxResults, false, "")
  }

  /** The offset of the request for zero-based page `i`. */
  function StartAt(i: nat, q: Query): int
    requires q.project.Some?
  {
    BuildRequest(GetKey(i, q).value).startAt
  }

  /** Two page keys are equal only when they come from the same page index and
      the same query: pages fetched under different queries never share a
      key, so they are never mixed in one result list. */
  lemma KeyIdentifiesQuery(i: nat, j: nat, q: Query, q': Query)
    requires GetKey(i, q).Some? && GetKey(i, q) == GetKey(j, q')
    ensures i == j && q == q'
  {
  }

  /** The request of the page at zero-based index `i` starts at issue
      `i * MaxResults`, so it is never negative and asks for exactly
      `MaxResults` issues. */
  lemma RequestOffset(i: nat, q: Query)
    requires q.project.Some?
    ensures StartAt(i, q) == i * MaxResults >= 0
    ensures BuildRequest(GetKey(i, q).value).maxResults == MaxResults
  {
  }

  /** Consecutive pages ask for adjacent windows. */
  lemma ConsecutiveRequests(i: nat, q: Query)
    requires q.project.Some?
    ensures StartAt(i + 1, q) == StartAt(i, q) + MaxResults
  {
  }

  /** Every issue position belongs to the window of exactly one page. */
  lemma WindowsPartitionOffsets(q: Query, n: nat)
    requires q.project.Some?
    ensures StartAt(n / MaxResults, q) <= n < StartAt(n / MaxResults, q) + MaxResults
    ensures forall i: nat :: StartAt(i, q) <= n < StartAt(i, q) + MaxResults ==> i == n / MaxResults
  {
  }
}
