/**
 * The `App` component: its state fields and the handlers that update them.
 * A fetch is the URL it requests; the response arriving is a separate call
 * (`SetSearchTopstories` on success, `OnNetworkError` on failure).
 */
module AppComponent {
  import opened Wrappers
  import opened Hits
  import Sorts
  import opened Store
  import opened Query

  class App {
    var results: Option<Results>
    var searchKey: string
    var searchTerm: string
    var isLoading: bool
    var sortKey: SortKey

    /** Every hit merged under each key so far, in arrival order. */
    ghost var merged: map<string, seq<Hit>>

    /**
     * Stored hits are only ever appended to or dismissed from, never
     * reordered: each entry is a sublist of everything merged under its key.
     */
    ghost predicate Valid()
      reads this
    {
      forall k :: k in Entries(results) ==> k in merged && IsSubsequence(Entries(results)[k].hits, merged[k])
    }

    constructor ()
      ensures Valid()
      ensures results == None && searchKey == "" && searchTerm == DEFAULT_QUERY
      ensures !isLoading && sortKey == NONE && merged == map[]
    {
      results := None;
      searchKey := "";
      searchTerm := DEFAULT_QUERY;
      isLoading := false;
      sortKey := NONE;
      merged := map[];
    }

    /** `onSort(sortKey)`: only records the key; selecting it again does not reverse anything. */
    method OnSort(key: SortKey)
      requires Valid()
      modifies this`sortKey
      ensures Valid() && sortKey == key
    {
      sortKey := key;
    }

    /** `fetchSearchTopstories(term, page)`: raises the loading flag and requests the URL returned. */
    method FetchSearchTopstories(term: string, page: int) returns (url: string)
      requires Valid()
      modifies this`isLoading
      ensures Valid() && isLoading
      ensures url == QueryUrl(term, page)
      ensures DecodeQueryUrl(url) == Some(Request(term, page))
    {
      isLoading := true;
      url := QueryUrl(term, page);
      QueryUrlRoundTrip(term, page);
    }

    /**
     * `setSearchTopstories(result)`: a successful response is merged under
     * the `searchKey` current when it arrives, and the loading flag drops.
     */
    method SetSearchTopstories(result: PageResult)
      requires Valid()
      modifies this`results, this`isLoading, this`merged
      ensures Valid() && !isLoading
      ensures results == Some(Merge(old(Entries(results)), searchKey, result))
      ensures merged == old(merged)[searchKey := (if searchKey in old(merged) then old(merged)[searchKey] else []) + result.hits]
    {
      var m := Entries(results);
      ghost var history := if searchKey in merged then merged[searchKey] else [];
      SubsequenceAppend(StoredHits(m, searchKey), history, result.hits);
      results := Some(Merge(m, searchKey, result));
      isLoading := false;
      merged := merged[searchKey := history + result.hits];
    }

    /** The `.catch` of the fetch: logged only, so nothing changes and the loading flag stays up. */
    method OnNetworkError(error: string)
      requires Valid()
      ensures Valid() && unchanged(this)
    {
    }

    /** `componentDidMount()`: shows the default term and fetches its first page. */
    method ComponentDidMount() returns (url: string)
      requires Valid()
      modifies this`searchKey, this`isLoading
      ensures Valid() && isLoading
      ensures searchKey == searchTerm
      ensures url == QueryUrl(searchTerm, DEFAULT_PAGE)
    {
      searchKey := searchTerm;
      url := FetchSearchTopstories(searchTerm, DEFAULT_PAGE);
    }

    /**
     * `onDismiss(id)`: drops every hit with `id` from the entry of `searchKey`.
     * Without an entry the source throws before changing anything: `ok` is false.
     */
    method OnDismiss(id: string) returns (ok: bool)
      requires Valid()
      modifies this`results
      ensures Valid()
      ensures ok <==> searchKey in old(Entries(results))
      ensures ok ==> results == Dismiss(old(results), searchKey, id)
      ensures !ok ==> results == old(results)
    {
      var r := Dismiss(results, searchKey, id);
      ok := r.Some?;
      if ok {
        var hits := Entries(results)[searchKey].hits;
        SubsequenceTrans(Without(hits, id), hits, merged[searchKey]);
        results := r;
      }
    }

    /** `onSearchChange(event)`: the search box text. */
    method OnSearchChange(value: string)
      requires Valid()
      modifies this`searchTerm
      ensures Valid() && searchTerm == value
    {
      searchTerm := value;
    }

    /**
     * `onSearchSubmit(event)`: shows the typed term, and fetches its first page
     * only when nothing is cached for it.
     */
    method OnSearchSubmit() returns (fetch: Option<string>)
      requires Valid()
      modifies this`searchKey, this`isLoading
      ensures Valid() && searchKey == searchTerm
      ensures fetch.Some? <==> searchTerm !in Entries(results)
      ensures fetch.Some? ==> fetch.value == QueryUrl(searchTerm, DEFAULT_PAGE) && isLoading
      ensures fetch.None? ==> isLoading == old(isLoading)
    {
      var term := searchTerm;
      searchKey := term;
      if NeedsToSearch(results, term) {
        var url := FetchSearchTopstories(term, DEFAULT_PAGE);
        fetch := Some(url);
      } else {
        fetch := None;
      }
    }

    /**
     * The "More" button: the next page of the shown term, whatever is cached.
     * The button is only on screen while no fetch is loading.
     */
    method More() returns (url: string)
      requires Valid() && !isLoading
      modifies this`isLoading
      ensures Valid() && isLoading
      ensures url == QueryUrl(searchKey, DisplayedPage(results, searchKey) + 1)
      ensures DecodeQueryUrl(url) == Some(Request(searchKey, DisplayedPage(results, searchKey) + 1))
    {
      url := FetchSearchTopstories(searchKey, DisplayedPage(results, searchKey) + 1);
    }

    /** The table rows: `SORTS[sortKey](list)`, a reordering of the shown list. */
    function Rows(): (rows: seq<Hit>)
      reads this
      ensures multiset(rows) == multiset(DisplayedList(results, searchKey))
      ensures sortKey == NONE ==> rows == DisplayedList(results, searchKey)
    {
      Sorts.SortIsPermutation(sortKey, DisplayedList(results, searchKey));
      Sorts.Sort(sortKey, DisplayedList(results, searchKey))
    }
  }

  /** Mounting, the first page arriving and a submit of the same term, as a caller sees them. */
  method MountThenResubmit(hits: seq<Hit>)
  {
    var app := new App();
    var url := app.ComponentDidMount();
    assert app.searchKey == "redux" && app.isLoading;
    assert url == QueryUrl("redux", 0);
    app.SetSearchTopstories(PageResult(hits, 0));
    assert [] + hits == hits;
    assert app.results.value.Keys == {"redux"} && app.results.value["redux"] == PageResult(hits, 0);
    assert !app.isLoading;
    var again := app.OnSearchSubmit();
    assert again == None;
    var next := app.More();
    assert next == QueryUrl("redux", 1);
  }

  /** A failed first fetch leaves the loading flag up and the cache empty. */
  method MountThenNetworkError()
  {
    var app := new App();
    var url := app.ComponentDidMount();
    app.OnNetworkError("Network response was not ok.");
    assert app.isLoading && app.results == None;
  }

  /**
   * A response is filed under the term shown when it arrives: submit an
   * uncached term, switch to a cached one, and the late page lands there.
   */
  method LateResponseFiledUnderShownTerm(cached: PageResult, late: PageResult)
  {
    var app := new App();
    var first := app.ComponentDidMount();
    app.SetSearchTopstories(cached);
    assert app.results.value.Keys == {"redux"} && [] + cached.hits == cached.hits;
    app.OnSearchChange("react");
    var fetch := app.OnSearchSubmit();
    assert fetch == Some(QueryUrl("react", 0));
    app.OnSearchChange("redux");
    var none := app.OnSearchSubmit();
    assert none == None;
    assert app.searchKey == "redux" && app.results.value["redux"].hits == cached.hits;
    ghost var before := app.results.value;
    app.SetSearchTopstories(late);
    assert app.results.value == Merge(before, "redux", late);
    assert StoredHits(before, "redux") == cached.hits;
    assert app.results.value["redux"] == PageResult(cached.hits + late.hits, late.page);
    assert app.results.value.Keys == {"redux"};
  }
}
