/**
 * app/add-vinyl.tsx: the search screen's pagination controller and its
 * duplicate-guarded add. `handleSearch` is asynchronous; it is modelled as an
 * issue step, which updates the screen state and yields the call it sends, and
 * a later completion step, which applies the reply (a page or a failure).
 */
module AddVinyl {
  import opened Wrappers
  import opened VinylTypes
  import opened JsText
  import opened Storage

  /** The message shown when a search request fails. */
  const SEARCH_ERROR: string := "검색 중 오류가 발생했습니다. 다시 시도해주세요."

  /** Page size requested from the catalog service. */
  const PER_PAGE: int := 10

  /** The screen state that the search handlers read and write. */
  datatype SearchState = SearchState(
    query: string,
    results: seq<SearchResultItem>,
    pagination: Option<Pagination>,
    loading: bool,
    loadingMore: bool,
    currentPage: int,
    hasMore: bool,
    error: Option<string>)

  /** The state the screen mounts with. */
  function InitialState(): SearchState {
    SearchState("", [], None, false, false, 1, true, None)
  }

  /** The search options the screen sends; the keys it never sets are omitted. */
  datatype SearchOptions = SearchOptions(q: string, kind: string, format: string, page: int, perPage: int)

  /** An outstanding `handleSearch` call: the options sent and whether it loads more. */
  datatype Call = Call(options: SearchOptions, isLoadMore: bool)

  /** What the search request eventually yields: a page, or a thrown error. */
  datatype Reply = Ok(response: SearchResponse) | Failed

  /** The state right after a handler ran synchronously, and the call it issued, if any. */
  datatype Issued = Issued(state: SearchState, call: Option<Call>)

  /** `onChangeText`: typing replaces the query and nothing else. */
  function SetQuery(s: SearchState, q: string): (r: SearchState)
    ensures r.query == q && r.(query := s.query) == s
  {
    s.(query := q)
  }

  /**
   * The synchronous part of `handleSearch(page, isLoadMore)`: a blank query
   * returns at once; otherwise the loading flag is raised (a new search also
   * clears the results, the page and the end-of-data flag), the error is
   * cleared and the request is sent.
   */
  function HandleSearch(s: SearchState, page: int, isLoadMore: bool): (r: Issued)
    ensures IsBlank(s.query) <==> r.call.None?
    ensures r.call.Some? ==>
      r.call.value == Call(SearchOptions(s.query, "release", "vinyl", page, PER_PAGE), isLoadMore)
  {
    if IsBlank(s.query) then Issued(s, None)
    else
      var s1 := if isLoadMore then s.(loadingMore := true)
                else s.(loading := true, results := [], currentPage := 1, hasMore := true);
      Issued(s1.(error := None), Some(Call(SearchOptions(s.query, "release", "vinyl", page, PER_PAGE), isLoadMore)))
  }

  /** `onSubmitEditing`: a new search for the first page. */
  function Submit(s: SearchState): Issued {
    HandleSearch(s, 1, false)
  }

  /** `onEndReached`: asks for the next page unless a load-more is running or the data ended. */
  function LoadMore(s: SearchState): (r: Issued)
    ensures s.loadingMore || !s.hasMore ==> r == Issued(s, None)
  {
    if !s.loadingMore && s.hasMore then HandleSearch(s, s.currentPage + 1, true) else Issued(s, None)
  }

  /**
   * The asynchronous part of `handleSearch`: a page replaces or extends the
   * results, may mark the end of the data and moves the current page; a
   * failure only records the error. Both clear the loading flags.
   */
  function Complete(s: SearchState, c: Call, reply: Reply): (r: SearchState)
    ensures !r.loading && !r.loadingMore
    ensures r.query == s.query
  {
    var s1 := match reply
      case Ok(resp) =>
        var results := if c.isLoadMore then s.results + resp.results else resp.results;
        var ended := resp.pagination.page >= resp.pagination.pages;
        s.(pagination := Some(resp.pagination),
           results := results,
           hasMore := if ended then false else s.hasMore,
           currentPage := c.options.page)
      case Failed => s.(error := Some(SEARCH_ERROR));
    s1.(loading := false, loadingMore := false)
  }

  /** What pressing the add button leads to. */
  datatype AddVinylOutcome = NoSelection | AlreadyAdded | Added(blob: Blob)

  /** The stored blob once the add button's handler finished. */
  function BlobAfter(b: Blob, o: AddVinylOutcome): Blob {
    if o.Added? then o.blob else b
  }

  /**
   * `handleAddVinyl`: without a selection nothing happens; a selection whose id
   * is already stored only raises an alert; otherwise the entry with the chosen
   * rating and review is saved.
   */
  function HandleAddVinyl(b: Blob, selected: Option<SearchResultItem>, rating: int, review: string): (r: AddVinylOutcome)
    ensures selected.None? ==> r == NoSelection
    ensures selected.Some? && HasId(GetMyVinyls(b), Int(selected.value.id)) ==> r == AlreadyAdded
    ensures selected.Some? && !HasId(GetMyVinyls(b), Int(selected.value.id)) ==>
      r.Added? && GetMyVinyls(r.blob) == GetMyVinyls(b) + [MyVinyl(Int(selected.value.id), Some(rating), Some(review))]
  {
    if selected.None? then NoSelection
    else
      var id := Int(selected.value.id);
      if HasId(GetMyVinyls(b), id) then AlreadyAdded
      else Added(SaveVinyl(b, MyVinyl(id, Some(rating), Some(review))))
  }

  /** The add button keeps the stored ids pairwise distinct. */
  lemma HandleAddVinylKeepsIdsDistinct(b: Blob, selected: Option<SearchResultItem>, rating: int, review: string)
    requires IdsDistinct(GetMyVinyls(b))
    ensures IdsDistinct(GetMyVinyls(BlobAfter(b, HandleAddVinyl(b, selected, rating, review))))
  {
  }
}
