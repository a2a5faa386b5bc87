/** Values exchanged between the search page and the issue-search endpoint.

    The identifier enumerations (projects, filters, sort fields) belong to the
    API client library, which is not part of this model; their ids are kept
    opaque here, wrapped so that the three kinds cannot be confused. */
module Api {

  datatype Option<+T> = None | Some(value: T)

  /** Page size used for every request, and the threshold for a short page. */
  const MaxResults: int := 25

  datatype ProjectId = ProjectId(id: string)
  datatype FilterId = FilterId(id: string)
  datatype SortFieldId = SortFieldId(id: string)

  /** The filter and the sort field the page starts with. */
  const DefaultFilter: FilterId := FilterId("all")
  const DefaultSortField: SortFieldId := SortFieldId("created")

  /** One issue as the page renders it: its key and its summary. */
  datatype Issue = Issue(key: string, summary: string)

  /** One response of the search endpoint. */
  datatype Page = Page(issues: seq<Issue>)

  /** The six query fields the user controls. Only `project` may be unset. */
  datatype Query = Query(
    project: Option<ProjectId>,
    filter: FilterId,
    sortField: SortFieldId,
    sortAsc: bool,
    advanced: bool,
    search: string)

  /** The query the page starts with. */
  const InitialQuery: Query :=
    Query(None, DefaultFilter, DefaultSortField, false, false, "")

  /** The cache key of one page: a one-based page number and the six
      query fields, with the project known to be set. */
  datatype Key = Key(
    page: int,
    project: ProjectId,
    filter: FilterId,
    sortField: SortFieldId,
    sortAsc: bool,
    advanced: bool,
    search: string)

  /** The body of a search request. */
  datatype SearchRequest = SearchRequest(
    project: ProjectId,
    filter: FilterId,
    sortField: SortFieldId,
    sortAsc: bool,
    advanced: bool,
    search: string,
    startAt: int,
    maxResults: int,
    isForge: bool,
    workspaceId: string)
}
