/**
 * The search screen together with its outstanding requests. Each issued call
 * is kept until its reply is applied; replies may be applied in any order.
 * This shows which facts about the screen state hold however the requests
 * interleave.
 */
module SearchSession {
  import opened Wrappers
  import opened VinylTypes
  import opened JsText
  import opened AddVinyl

  datatype Session = Session(state: SearchState, pending: seq<Call>)

  function InitialSession(): Session {
    Session(InitialState(), [])
  }

  /**
   * A user action, or the reply to the outstanding call at position `i`.
   * `EndReached` comes from the result list, which is mounted only while there are results.
   */
  datatype Action = Type(q: string) | SubmitSearch | EndReached | Resolve(i: nat, reply: Reply)

  /** Records the call a handler issued, if it issued one. */
  function AfterIssue(ss: Session, iss: Issued): (r: Session)
    ensures r.state == iss.state
    ensures iss.call.None? ==> r.pending == ss.pending
    ensures iss.call.Some? ==> r.pending == ss.pending + [iss.call.value]
  {
    Session(iss.state, ss.pending + (if iss.call.Some? then [iss.call.value] else []))
  }

  function Next(ss: Session, a: Action): Session {
    match a
    case Type(q) => Session(SetQuery(ss.state, q), ss.pending)
    case SubmitSearch => AfterIssue(ss, Submit(ss.state))
    case EndReached =>
      if |ss.state.results| > 0 then AfterIssue(ss, LoadMore(ss.state)) else ss
    case Resolve(i, reply) =>
      if i < |ss.pending| then
        Session(Complete(ss.state, ss.pending[i], reply), ss.pending[..i] + ss.pending[i + 1..])
      else ss
  }

  function Run(ss: Session, actions: seq<Action>): Session
    decreases |actions|
  {
    if |actions| == 0 then ss else Run(Next(ss, actions[0]), actions[1..])
  }

  /** Some outstanding call is of the given kind. */
  predicate HasPending(pending: seq<Call>, isLoadMore: bool) {
    exists j :: 0 <= j < |pending| && pending[j].isLoadMore == isLoadMore
  }

  /**
   * The page cursor and every requested page are at least 1, every request asks
   * for vinyl releases in pages of PER_PAGE, a raised loading flag is backed by
   * an outstanding call of its kind, and a first search runs with no results shown.
   */
  predicate Inv(ss: Session) {
    && ss.state.currentPage >= 1
    && (forall j :: 0 <= j < |ss.pending| ==>
          ss.pending[j].options.page >= 1
          && ss.pending[j].options.kind == "release"
          && ss.pending[j].options.format == "vinyl"
          && ss.pending[j].options.perPage == PER_PAGE)
    && (ss.state.loading ==> HasPending(ss.pending, false))
    && (ss.state.loadingMore ==> HasPending(ss.pending, true))
    && (ss.state.loading ==> ss.state.results == [])
  }

  lemma InitialInv()
    ensures Inv(InitialSession())
  {
  }

  lemma AppendKeepsPending(pending: seq<Call>, c: Call, isLoadMore: bool)
    requires HasPending(pending, isLoadMore)
    ensures HasPending(pending + [c], isLoadMore)
  {
    var j :| 0 <= j < |pending| && pending[j].isLoadMore == isLoadMore;
    assert (pending + [c])[j] == pending[j];
  }

  lemma AppendShowsPending(pending: seq<Call>, c: Call)
    ensures HasPending(pending + [c], c.isLoadMore)
  {
    assert (pending + [c])[|pending|] == c;
  }

  lemma {:induction false} IssuePreservesInv(ss: Session, iss: Issued)
    requires Inv(ss)
    requires iss == Submit(ss.state) || iss == LoadMore(ss.state)
    ensures Inv(AfterIssue(ss, iss))
  {
    var r := AfterIssue(ss, iss);
    if iss.call.Some? {
      var c := iss.call.value;
      assert r.pending == ss.pending + [c];
      assert forall j :: 0 <= j < |ss.pending| ==> r.pending[j] == ss.pending[j];
      assert r.pending[|ss.pending|] == c;
      AppendShowsPending(ss.pending, c);
      if ss.state.loading {
        AppendKeepsPending(ss.pending, c, false);
      }
      if ss.state.loadingMore {
        AppendKeepsPending(ss.pending, c, true);
      }
    }
  }

  /** Every action keeps the invariant. */
  lemma {:induction false} NextPreservesInv(ss: Session, a: Action)
    requires Inv(ss)
    ensures Inv(Next(ss, a))
  {
    match a
    case Type(q) =>
    case SubmitSearch => IssuePreservesInv(ss, Submit(ss.state));
    case EndReached =>
      if |ss.state.results| > 0 {
        IssuePreservesInv(ss, LoadMore(ss.state));
      }
    case Resolve(i, reply) =>
      if i < |ss.pending| {
        var rest := ss.pending[..i] + ss.pending[i + 1..];
        assert forall j :: 0 <= j < |rest| ==> rest[j] == ss.pending[if j < i then j else j + 1];
      }
  }

  lemma {:induction false} RunPreservesInv(ss: Session, actions: seq<Action>)
    requires Inv(ss)
    ensures Inv(Run(ss, actions))
    decreases |actions|
  {
    if |actions| > 0 {
      NextPreservesInv(ss, actions[0]);
      RunPreservesInv(Next(ss, actions[0]), actions[1..]);
    }
  }

  /** Once every request has been answered, in whatever order, no spinner is showing. */
  lemma QuiescentMeansNotLoading(actions: seq<Action>)
    requires Run(InitialSession(), actions).pending == []
    ensures !Run(InitialSession(), actions).state.loading
    ensures !Run(InitialSession(), actions).state.loadingMore
  {
    InitialInv();
    RunPreservesInv(InitialSession(), actions);
  }

  /** In every reachable session the page cursor is a real page number. */
  lemma ReachablePageIsPositive(actions: seq<Action>)
    ensures Run(InitialSession(), actions).state.currentPage >= 1
  {
    InitialInv();
    RunPreservesInv(InitialSession(), actions);
  }

  /** While a first search is loading the result list is unmounted, so no load-more is sent. */
  lemma NoLoadMoreDuringFirstSearch(actions: seq<Action>)
    requires Run(InitialSession(), actions).state.loading
    ensures Run(InitialSession(), actions).state.results == []
    ensures Next(Run(InitialSession(), actions), EndReached) == Run(InitialSession(), actions)
  {
    InitialInv();
    RunPreservesInv(InitialSession(), actions);
  }

  /** Only a new, non-blank search raises the end-of-data flag back to true. */
  lemma HasMoreOnlyResetByNewSearch(ss: Session, a: Action)
    requires !ss.state.hasMore && Next(ss, a).state.hasMore
    ensures a.SubmitSearch? && !IsBlank(ss.state.query)
  {
  }

  /** Both outstanding calls are load-mores for the same page. */
  predicate TwoLoadMoresFor(pending: seq<Call>, page: int) {
    && |pending| == 2
    && pending[0].isLoadMore && pending[1].isLoadMore
    && pending[0].options.page == page && pending[1].options.page == page
  }

  lemma {:induction false} RunAppend(ss: Session, a: seq<Action>, b: seq<Action>)
    ensures Run(ss, a + b) == Run(Run(ss, a), b)
    decreases |a|
  {
    if |a| > 0 {
      assert (a + b)[1..] == a[1..] + b;
      RunAppend(Next(ss, a[0]), a[1..], b);
    } else {
      assert a + b == b;
    }
  }

  lemma RunOne(ss: Session, a: Action)
    ensures Run(ss, [a]) == Next(ss, a)
  {
    assert [a][1..] == [];
  }

  lemma RunTwo(ss: Session, a: Action, b: Action)
    ensures Run(ss, [a, b]) == Next(Next(ss, a), b)
  {
    assert [a, b][1..] == [b];
    RunOne(Next(ss, a), b);
  }

  /** The query is "a", one result is shown, more pages follow and no load-more is running. */
  predicate ShowsFirstPage(ss: Session, item: SearchResultItem) {
    && ss.state.query == "a" && ss.state.results == [item] && ss.state.currentPage == 1
    && ss.state.hasMore && !ss.state.loadingMore
  }

  /** Page 1 of 3, holding one result. */
  function OnePage(item: SearchResultItem): SearchResponse {
    SearchResponse([item], Pagination(PER_PAGE, 3, 1, None, None, 23))
  }

  lemma TraceFirstPage(item: SearchResultItem)
    ensures var t := Run(InitialSession(), [Type("a"), SubmitSearch, Resolve(0, Ok(OnePage(item)))]);
      ShowsFirstPage(t, item) && t.pending == []
  {
    assert !IsBlank("a") by {
      TrimUnchanged("a");
    }
    var s0 := Next(InitialSession(), Type("a"));
    RunTwo(s0, SubmitSearch, Resolve(0, Ok(OnePage(item))));
    assert [Type("a"), SubmitSearch, Resolve(0, Ok(OnePage(item)))][1..] == [SubmitSearch, Resolve(0, Ok(OnePage(item)))];
    var s1 := Next(s0, SubmitSearch);
    assert |s1.pending| == 1;
  }

  lemma TraceLoadMore(ss: Session, item: SearchResultItem)
    requires ShowsFirstPage(ss, item)
    ensures var t := Run(ss, [EndReached]);
      && |t.pending| == |ss.pending| + 1 && t.pending[..|ss.pending|] == ss.pending
      && t.pending[|ss.pending|].isLoadMore && t.pending[|ss.pending|].options.page == 2
  {
    RunOne(ss, EndReached);
    assert !IsBlank("a") by {
      TrimUnchanged("a");
    }
  }

  lemma TraceNewSearch(ss: Session, item: SearchResultItem)
    requires |ss.pending| == 1 && ss.state.query == "a"
    ensures var t := Run(ss, [SubmitSearch, Resolve(1, Ok(OnePage(item)))]);
      ShowsFirstPage(t, item) && t.pending == ss.pending
  {
    RunTwo(ss, SubmitSearch, Resolve(1, Ok(OnePage(item))));
    assert !IsBlank("a") by {
      TrimUnchanged("a");
    }
    var s1 := Next(ss, SubmitSearch);
    assert |s1.pending| == 2 && s1.pending[..1] == ss.pending;
  }

  /**
   * The `finally` of every completion lowers `loadingMore`, so the reply to a
   * newer first search reopens the guard while an older load-more is still
   * outstanding: two requests for page 2 end up in flight together.
   */
  lemma GuardReopenedByNewSearch(item: SearchResultItem)
    ensures var p := OnePage(item);
      var ss := Run(InitialSession(),
        [Type("a"), SubmitSearch, Resolve(0, Ok(p)), EndReached, SubmitSearch, Resolve(1, Ok(p)), EndReached]);
      TwoLoadMoresFor(ss.pending, 2)
  {
    var p := OnePage(item);
    var i := InitialSession();
    var x1 := [Type("a"), SubmitSearch, Resolve(0, Ok(p))];
    var x2 := [EndReached];
    var x3 := [SubmitSearch, Resolve(1, Ok(p))];
    assert [Type("a"), SubmitSearch, Resolve(0, Ok(p)), EndReached, SubmitSearch, Resolve(1, Ok(p)), EndReached]
      == x1 + x2 + x3 + x2;
    RunAppend(i, x1 + x2 + x3, x2);
    RunAppend(i, x1 + x2, x3);
    RunAppend(i, x1, x2);
    TraceFirstPage(item);
    var s1 := Run(i, x1);
    TraceLoadMore(s1, item);
    var s2 := Run(s1, x2);
    TraceNewSearch(s2, item);
    var s3 := Run(s2, x3);
    TraceLoadMore(s3, item);
  }
}
