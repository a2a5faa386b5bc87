/** The search page's own state: the six query cells, the text currently in
    the (uncontrolled) search box, and the number of pages requested from the
    infinite-loading hook. Each event handler changes its own cell and nothing
    else. */
module SearchPageState {
  import opened Api
  import opened SearchKey
  import opened ResultView

  class SearchPage {
    var project: Option<ProjectId>
    var filter: FilterId
    var sortField: SortFieldId
    var sortAsc: bool
    var advanced: bool
    /** The committed search text, the one that goes into the key. */
    var search: string
    /** The text shown in the search box, which may not be committed yet. */
    var draft: string
    /** The number of pages requested. */
    var size: nat

    /** The query the page keys are built from. */
    function CurrentQuery(): Query
      reads this
    {
      Query(project, filter, sortField, sortAsc, advanced, search)
    }

    /** The key of page `pageIndex` under the current query. */
    function KeyAt(pageIndex: nat): Option<Key>
      reads this
    {
      GetKey(pageIndex, CurrentQuery())
    }

    /** A fresh page: no project, the default filter and sort field,
        descending order, advanced mode off, an empty search, and the page
        count the hook starts from. */
    constructor (initialSize: nat)
      ensures CurrentQuery() == InitialQuery && draft == "" && size == initialSize
      ensures KeyAt(0).None?
    {
      project := None;
      filter := DefaultFilter;
      sortField := DefaultSortField;
      sortAsc := false;
      advanced := false;
      search := "";
      draft := "";
      size := initialSize;
    }

    method SetProject(p: ProjectId)
      modifies this
      ensures CurrentQuery() == old(CurrentQuery()).(project := Some(p))
      ensures draft == old(draft) && size == old(size)
      ensures KeyAt(0).Some?
    {
      project := Some(p);
    }

    method SetFilter(f: FilterId)
      modifies this
      ensures CurrentQuery() == old(CurrentQuery()).(filter := f)
      ensures draft == old(draft) && size == old(size)
    {
      filter := f;
    }

    method SetSortField(f: SortFieldId)
      modifies this
      ensures CurrentQuery() == old(CurrentQuery()).(sortField := f)
      ensures draft == old(draft) && size == old(size)
    {
      sortField := f;
    }

    /** The sort-direction button flips the direction. */
    method ToggleSortAsc()
      modifies this
      ensures CurrentQuery() == old(CurrentQuery()).(sortAsc := !old(sortAsc))
      ensures draft == old(draft) && size == old(size)
    {
      sortAsc := !sortAsc;
    }

    method SetAdvanced(b: bool)
      modifies this
      ensures CurrentQuery() == old(CurrentQuery()).(advanced := b)
      ensures draft == old(draft) && size == old(size)
    {
      advanced := b;
    }

    /** Typing in the search box changes only the box: nothing is committed,
        so no key changes. */
    method Edit(text: string)
      modifies this
      ensures draft == text
      ensures CurrentQuery() == old(CurrentQuery()) && size == old(size)
      ensures forall i: nat :: KeyAt(i) == old(KeyAt(i))
    {
      draft := text;
    }

    /** Leaving the search box commits its text. */
    method Blur()
      modifies this
      ensures CurrentQuery() == old(CurrentQuery()).(search := old(draft))
      ensures draft == old(draft) && size == old(size)
    {
      search := draft;
    }

    /** A key press in the search box: Enter commits the box's text, Escape
        puts the committed text back into the box, any other key changes
        nothing. */
    method KeyDown(key: string)
      modifies this
      ensures key == "Enter" ==> CurrentQuery() == old(CurrentQuery()).(search := old(draft)) && draft == old(draft)
      ensures key == "Escape" ==> CurrentQuery() == old(CurrentQuery()) && draft == old(search)
      ensures key != "Enter" && key != "Escape" ==> CurrentQuery() == old(CurrentQuery()) && draft == old(draft)
      ensures size == old(size)
    {
      if key == "Enter" {
        search := draft;
      } else if key == "Escape" {
        draft := search;
      }
    }

    /** A click on "load more". A disabled button takes no click; an enabled
        one asks for exactly one more page and leaves the query alone. */
    method LoadMore(l: Loader) returns (requested: bool)
      modifies this
      ensures requested <==> !LoadMoreDisabled(l, old(size))
      ensures size == if requested then old(size) + 1 else old(size)
      ensures CurrentQuery() == old(CurrentQuery()) && draft == old(draft)
    {
      requested := !LoadMoreDisabled(l, size);
      if requested {
        size := size + 1;
      }
    }
  }
}
