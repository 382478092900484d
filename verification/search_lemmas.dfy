/** Properties of the search screen's issue and completion steps. */
module SearchLemmas {
  import opened Wrappers
  import opened VinylTypes
  import opened JsText
  import opened AddVinyl

  /** A query of nothing but white space issues no request and changes no state. */
  lemma BlankQueryIsNoOp(s: SearchState, page: int, isLoadMore: bool)
    requires AllWhiteSpace(s.query)
    ensures HandleSearch(s, page, isLoadMore) == Issued(s, None)
  {
    BlankIffAllWhiteSpace(s.query);
  }

  /** Before any reply arrives, a new search has emptied the results and reset the page cursor. */
  lemma NewSearchResetsBeforeReply(s: SearchState)
    requires !IsBlank(s.query)
    ensures var t := Submit(s).state;
      && t.results == [] && t.currentPage == 1 && t.hasMore && t.error == None && t.loading
      && t.query == s.query && t.pagination == s.pagination && t.loadingMore == s.loadingMore
    ensures Submit(s).call == Some(Call(SearchOptions(s.query, "release", "vinyl", 1, PER_PAGE), false))
  {
  }

  /** A new search's page replaces whatever results were shown before. */
  lemma NewSearchReplacesResults(s: SearchState, resp: SearchResponse)
    requires !IsBlank(s.query)
    ensures var i := Submit(s);
      var t := Complete(i.state, i.call.value, Ok(resp));
      t.results == resp.results && t.currentPage == 1 && t.pagination == Some(resp.pagination)
  {
  }

  /** A further page lands after the results already shown, which keep their order. */
  lemma LoadMoreAppendsResults(s: SearchState, resp: SearchResponse)
    requires !IsBlank(s.query) && !s.loadingMore && s.hasMore
    ensures var i := LoadMore(s);
      var t := Complete(i.state, i.call.value, Ok(resp));
      && t.results == s.results + resp.results
      && t.results[..|s.results|] == s.results
      && t.currentPage == s.currentPage + 1
  {
  }

  /** A reported page at or past the reported page count ends the data; an earlier one keeps the flag. */
  lemma EndOfData(s: SearchState, c: Call, resp: SearchResponse)
    ensures resp.pagination.page >= resp.pagination.pages ==> !Complete(s, c, Ok(resp)).hasMore
    ensures resp.pagination.page < resp.pagination.pages ==> Complete(s, c, Ok(resp)).hasMore == s.hasMore
  {
  }

  /** Only a page moves the cursor, to the page that was requested. */
  lemma SuccessMovesCursor(s: SearchState, c: Call, resp: SearchResponse)
    ensures Complete(s, c, Ok(resp)).currentPage == c.options.page
    ensures Complete(s, c, Failed).currentPage == s.currentPage
  {
  }

  /** The boundary cases: page 3 of 3 ends the data, page 2 of 3 does not. */
  lemma EndOfDataBoundary(s: SearchState, c: Call, rs: seq<SearchResultItem>)
    requires s.hasMore
    ensures !Complete(s, c, Ok(SearchResponse(rs, Pagination(PER_PAGE, 3, 3, None, None, 23)))).hasMore
    ensures Complete(s, c, Ok(SearchResponse(rs, Pagination(PER_PAGE, 3, 2, None, None, 23)))).hasMore
  {
  }

  /** A failed request records the error and keeps the page cursor, the results and the flags it had. */
  lemma FailureKeepsProgress(s: SearchState, c: Call)
    ensures var t := Complete(s, c, Failed);
      && t.error == Some(SEARCH_ERROR)
      && t.results == s.results && t.currentPage == s.currentPage
      && t.hasMore == s.hasMore && t.pagination == s.pagination
  {
  }

  /** Whatever the reply, a completion lowers both loading flags. */
  lemma CompletionClearsLoading(s: SearchState, c: Call, reply: Reply)
    ensures !Complete(s, c, reply).loading && !Complete(s, c, reply).loadingMore
  {
  }

  /** When allowed, load-more asks for exactly the page after the current one. */
  lemma LoadMoreRequestsNextPage(s: SearchState)
    requires !IsBlank(s.query) && !s.loadingMore && s.hasMore
    ensures LoadMore(s).call == Some(Call(SearchOptions(s.query, "release", "vinyl", s.currentPage + 1, PER_PAGE), true))
    ensures LoadMore(s).state == s.(loadingMore := true, error := None)
  {
  }

  /**
   * A load-more issued directly after an allowed load-more sends nothing. Any
   * completion lowers the flag again: see `SearchSession.GuardReopenedByNewSearch`.
   */
  lemma LoadMoreNotReentrant(s: SearchState)
    requires LoadMore(s).call.Some?
    ensures LoadMore(LoadMore(s).state) == Issued(LoadMore(s).state, None)
  {
  }

  /**
   * `loadMore`'s own guard reads only `loadingMore` and `hasMore`, not `loading`.
   * The screen never calls it then: see `SearchSession.NoLoadMoreDuringFirstSearch`.
   */
  lemma LoadMoreDuringFirstSearch(s: SearchState)
    requires !IsBlank(s.query) && !s.loadingMore
    ensures Submit(s).state.loading
    ensures LoadMore(Submit(s).state).call.Some?
  {
  }

  /** One load-more request answered with `resp`. */
  function LoadMoreCycle(s: SearchState, resp: SearchResponse): SearchState {
    var i := LoadMore(s);
    if i.call.Some? then Complete(i.state, i.call.value, Ok(resp)) else s
  }

  /** Load-more requests issued one after another, each answered before the next. */
  function LoadMoreCycles(s: SearchState, resps: seq<SearchResponse>): SearchState
    decreases |resps|
  {
    if |resps| == 0 then s else LoadMoreCycles(LoadMoreCycle(s, resps[0]), resps[1..])
  }

  /** The results of the pages in order. */
  function ConcatResults(resps: seq<SearchResponse>): seq<SearchResultItem>
    decreases |resps|
  {
    if |resps| == 0 then [] else resps[0].results + ConcatResults(resps[1..])
  }

  /** Every page but possibly the last reports that more pages follow. */
  predicate MoreFollowBeforeLast(resps: seq<SearchResponse>) {
    forall j :: 0 <= j < |resps| - 1 ==> resps[j].pagination.page < resps[j].pagination.pages
  }

  /** One answered load-more, as the induction below uses it. */
  lemma LoadMoreCycleStep(s: SearchState, resp: SearchResponse)
    requires !IsBlank(s.query) && !s.loadingMore && s.hasMore
    ensures var t := LoadMoreCycle(s, resp);
      && t.results == s.results + resp.results
      && t.currentPage == s.currentPage + 1
      && t.query == s.query && !t.loadingMore
      && (t.hasMore <==> resp.pagination.page < resp.pagination.pages)
  {
  }

  lemma MoreFollowBeforeLastTail(resps: seq<SearchResponse>)
    requires |resps| > 0 && MoreFollowBeforeLast(resps)
    ensures MoreFollowBeforeLast(resps[1..])
  {
  }

  /**
   * Sequential load-mores accumulate every page's results in request order,
   * with no gap and no repetition, and advance the page cursor once per page.
   */
  lemma {:induction false} LoadMoreCyclesConcatenate(s: SearchState, resps: seq<SearchResponse>)
    requires !IsBlank(s.query) && !s.loadingMore && s.hasMore
    requires MoreFollowBeforeLast(resps)
    ensures LoadMoreCycles(s, resps).results == s.results + ConcatResults(resps)
    ensures LoadMoreCycles(s, resps).currentPage == s.currentPage + |resps|
    decreases |resps|
  {
    if |resps| > 0 {
      var t := LoadMoreCycle(s, resps[0]);
      LoadMoreCycleStep(s, resps[0]);
      var rest := resps[1..];
      assert LoadMoreCycles(s, resps) == LoadMoreCycles(t, rest);
      assert ConcatResults(resps) == resps[0].results + ConcatResults(rest);
      if |rest| > 0 {
        MoreFollowBeforeLastTail(resps);
        LoadMoreCyclesConcatenate(t, rest);
        assert t.results + ConcatResults(rest) == s.results + ConcatResults(resps);
      } else {
        assert resps[0].results + [] == resps[0].results;
      }
    }
  }

  /** After sequential load-mores the data has ended exactly when the last page says so. */
  lemma {:induction false} LoadMoreCyclesEndOfData(s: SearchState, resps: seq<SearchResponse>)
    requires !IsBlank(s.query) && !s.loadingMore && s.hasMore
    requires MoreFollowBeforeLast(resps) && |resps| > 0
    ensures !LoadMoreCycles(s, resps).hasMore
            <==> resps[|resps| - 1].pagination.page >= resps[|resps| - 1].pagination.pages
    decreases |resps|
  {
    var t := LoadMoreCycle(s, resps[0]);
    LoadMoreCycleStep(s, resps[0]);
    var rest := resps[1..];
    assert LoadMoreCycles(s, resps) == LoadMoreCycles(t, rest);
    if |rest| > 0 {
      MoreFollowBeforeLastTail(resps);
      LoadMoreCyclesEndOfData(t, rest);
      assert rest[|rest| - 1] == resps[|resps| - 1];
    }
  }

  /**
   * A three-page search: the first page and two load-mores collect every
   * result, and the data has ended after the third page.
   */
  lemma ThreePageSearch(s: SearchState, p1: seq<SearchResultItem>, p2: seq<SearchResultItem>, p3: seq<SearchResultItem>)
    requires !IsBlank(s.query) && !s.loadingMore
    ensures var r1 := SearchResponse(p1, Pagination(PER_PAGE, 3, 1, None, None, 23));
      var r2 := SearchResponse(p2, Pagination(PER_PAGE, 3, 2, None, None, 23));
      var r3 := SearchResponse(p3, Pagination(PER_PAGE, 3, 3, None, None, 23));
      var i := Submit(s);
      var t := LoadMoreCycles(Complete(i.state, i.call.value, Ok(r1)), [r2, r3]);
      t.results == p1 + p2 + p3 && t.currentPage == 3 && !t.hasMore && LoadMore(t).call.None?
  {
    var r1 := SearchResponse(p1, Pagination(PER_PAGE, 3, 1, None, None, 23));
    var r2 := SearchResponse(p2, Pagination(PER_PAGE, 3, 2, None, None, 23));
    var r3 := SearchResponse(p3, Pagination(PER_PAGE, 3, 3, None, None, 23));
    var i := Submit(s);
    var t0 := Complete(i.state, i.call.value, Ok(r1));
    LoadMoreCyclesConcatenate(t0, [r2, r3]);
    LoadMoreCyclesEndOfData(t0, [r2, r3]);
    assert ConcatResults([r2, r3]) == p2 + ConcatResults([r3]);
    assert ConcatResults([r3]) == p3 + ConcatResults([]);
    assert p1 + (p2 + (p3 + [])) == p1 + p2 + p3;
  }
}
