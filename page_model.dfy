/** The viewer's page state and its transitions, as values. Each handler of
    the page is a function from the state before to the state after, together
    with the requests it sends to the rows endpoint; a request's reply comes
    back later as an event of its own, so replies may arrive in any order
    (the last one to arrive wins). */
module PageModel {
  import opened Wrappers
  import opened Rows
  import opened Datasets
  import opened Search
  import opened Views

  /** The page's module-level state: `currentDatasetKey`, `currentOffset`,
      `allData`, `filteredData`, `totalRows`, and the text of the search
      box. */
  datatype PageState = PageState(
    datasetKey: DatasetKey,
    offset: nat,
    allData: seq<Row>,
    filteredData: seq<Row>,
    totalRows: Total,
    searchText: string)

  /** What the page last displayed. `None` stands for the content of the
      markup before the first update. */
  datatype Screen = Screen(table: Option<seq<TableRow>>, pager: Option<Pager>, stats: StatsLine)

  datatype State = State(page: PageState, screen: Screen)

  /** A read of `length` rows from `offset` of a dataset. */
  datatype Request = Request(dataset: DatasetKey, offset: nat, length: nat)

  /** The state after a handler, and the requests it sent, in order. */
  datatype Effect = Effect(next: State, requests: seq<Request>)

  /** The outcome of `loadDictionary`'s request: the parsed body, whose
      `rows` and `num_rows_total` may be absent, or a failure (a status other
      than 2xx, a transport error, a body that is not JSON). */
  datatype PageReply = PageBody(rows: Option<seq<Row>>, numRowsTotal: Option<nat>) | PageError(message: string)

  /** The outcome of `loadStatistics`'s request: the parsed body, whatever
      its status, or a failure (a transport error, a body that is not JSON). */
  datatype StatsReply = StatsBody(numRowsTotal: Option<nat>) | StatsError

  /** The page read `loadDictionary` sends. */
  function PageRequest(p: PageState): Request {
    Request(p.datasetKey, p.offset, PageSize)
  }

  /** The one-row read `loadStatistics` sends. */
  function StatsRequest(key: DatasetKey): Request {
    Request(key, 0, 1)
  }

  /** The globals' initial values, for a given dataset. */
  function InitialPage(key: DatasetKey): PageState {
    PageState(key, 0, [], [], Known(0), "")
  }

  function Initial(): State {
    State(InitialPage(Alpaca), Screen(None, None, FromMarkup))
  }

  /** The page has loaded: `loadDictionary()` then `loadStatistics()`. */
  function Start(s: State): (e: Effect)
    ensures s.page.offset % PageSize == 0 ==> forall r :: r in e.requests ==> WellFormed(r)
  {
    Effect(s, [PageRequest(s.page), StatsRequest(s.page.datasetKey)])
  }

  /** `previousPage`. */
  function PreviousPage(s: State): (e: Effect)
    ensures e.next.screen == s.screen
    ensures e.requests == [] || e.requests == [PageRequest(e.next.page)]
  {
    if s.page.offset >= PageSize then
      var p := s.page.(offset := s.page.offset - PageSize);
      Effect(s.(page := p), [PageRequest(p)])
    else
      Effect(s, [])
  }

  /** `nextPage`. */
  function NextPage(s: State): (e: Effect)
    ensures e.next.screen == s.screen
    ensures e.requests == [PageRequest(e.next.page)]
  {
    var p := s.page.(offset := s.page.offset + PageSize);
    Effect(s.(page := p), [PageRequest(p)])
  }

  /** The user edits the search box. */
  function EditSearch(s: State, text: string): (t: State)
    ensures t.screen == s.screen && t.page.searchText == text
  {
    s.(page := s.page.(searchText := text))
  }

  /** `renderTable()` followed by `updatePaginationButtons()`. */
  function Redisplay(p: PageState, screen: Screen): (r: Screen)
    ensures r.stats == screen.stats && r.table.Some? && r.pager.Some?
  {
    screen.(table := Some(Table(p.offset, p.filteredData, Columns(p.datasetKey))),
            pager := Some(PaginationControls(p.offset, p.totalRows)))
  }

  /** `performSearch`. */
  function PerformSearch(s: State): (e: Effect)
    ensures e.requests == []
    ensures e.next.page.allData == s.page.allData && e.next.screen.stats == s.screen.stats
  {
    var p := s.page.(filteredData := ApplySearch(s.page.allData, Columns(s.page.datasetKey), s.page.searchText));
    Effect(State(p, Redisplay(p, s.screen)), [])
  }

  /** `if (num_rows_total)`: the reply states a total, and it is not 0. */
  predicate Reported(n: Option<nat>) {
    n.Some? && n.value != 0
  }

  /** The completion of `loadDictionary`. */
  function PageLoaded(s: State, reply: PageReply): (e: Effect)
    ensures e.requests == []
    ensures e.next.page.offset == s.page.offset && e.next.page.datasetKey == s.page.datasetKey
    ensures e.next.page.searchText == s.page.searchText
  {
    match reply
    case PageError(_) => Effect(s, [])
    case PageBody(rows, num) =>
      var data := rows.GetOr([]);
      var total := if Reported(num) then Known(num.value) else s.page.totalRows;
      var p := s.page.(allData := data, filteredData := data, totalRows := total);
      var stats := if Reported(num) then StatisticsLine(p.offset, total) else s.screen.stats;
      Effect(State(p, Redisplay(p, s.screen.(stats := stats))), [])
  }

  /** The completion of `loadStatistics`. */
  function StatsLoaded(s: State, reply: StatsReply): (t: State)
    ensures t.page.(totalRows := s.page.totalRows) == s.page
    ensures t.screen.table == s.screen.table && t.screen.pager == s.screen.pager
  {
    match reply
    case StatsError => s.(screen := s.screen.(stats := StatsUnavailable))
    case StatsBody(num) =>
      var total := if Reported(num) then Known(num.value) else Unknown;
      var p := s.page.(totalRows := total);
      State(p, s.screen.(stats := StatisticsLine(p.offset, total)))
  }

  /** The dataset selector's change handler. */
  function SwitchDataset(s: State, key: DatasetKey): (e: Effect)
    ensures e.next.page.datasetKey == key && e.next.screen == s.screen
    ensures |e.requests| == 2
  {
    var p := InitialPage(key);
    Effect(State(p, s.screen), [PageRequest(p), StatsRequest(key)])
  }

  /** Everything that can happen to the page after it has loaded. */
  datatype Event =
    | ClickPrevious
    | ClickNext
    | TypeSearch(text: string)
    | SubmitSearch
    | PageArrived(reply: PageReply)
    | StatsArrived(stats: StatsReply)
    | SelectDataset(key: DatasetKey)

  /** One event. Clicks are taken whatever the buttons show: a superset of
      what the page lets through. */
  function Step(s: State, e: Event): (eff: Effect)
    ensures |eff.requests| <= 2
  {
    match e
    case ClickPrevious => PreviousPage(s)
    case ClickNext => NextPage(s)
    case TypeSearch(text) => Effect(EditSearch(s, text), [])
    case SubmitSearch => PerformSearch(s)
    case PageArrived(reply) => PageLoaded(s, reply)
    case StatsArrived(reply) => Effect(StatsLoaded(s, reply), [])
    case SelectDataset(key) => SwitchDataset(s, key)
  }

  /** The state after `events`, and every request sent on the way. */
  function Run(s: State, events: seq<Event>): (eff: Effect)
    ensures |eff.requests| <= 2 * |events|
    decreases |events|
  {
    if events == [] then Effect(s, [])
    else
      var first := Step(s, events[0]);
      var rest := Run(first.next, events[1..]);
      Effect(rest.next, first.requests + rest.requests)
  }

  /** The invariants of the page state: the offset is on a page boundary,
      and the filtered rows are what some search of the loaded rows, with
      the current dataset's columns, selects. */
  ghost predicate Consistent(p: PageState) {
    && p.offset % PageSize == 0
    && exists query :: p.filteredData == Selected(p.allData, Columns(p.datasetKey), query)
  }

  /** A request the page can send: a full page at a page boundary, or the
      one-row statistics read. */
  predicate WellFormed(r: Request) {
    (r.length == PageSize && r.offset % PageSize == 0) || (r.offset == 0 && r.length == 1)
  }

  /** The empty query selects every row. */
  lemma EmptyQuerySelectsAll(rows: seq<Row>, columns: seq<Column>)
    ensures Selected(rows, columns, "") == rows
  {
  }

  lemma InitialConsistent()
    ensures Consistent(Initial().page)
    ensures forall r :: r in Start(Initial()).requests ==> WellFormed(r)
  {
    EmptyQuerySelectsAll([], Columns(Alpaca));
  }

  /** The invariants only look at the offset, the dataset and the rows. */
  lemma ConsistentCarriesOver(p: PageState, q: PageState)
    requires Consistent(p)
    requires q.allData == p.allData && q.filteredData == p.filteredData && q.datasetKey == p.datasetKey
    requires q.offset % PageSize == 0
    ensures Consistent(q)
  {
    var query :| p.filteredData == Selected(p.allData, Columns(p.datasetKey), query);
    assert q.filteredData == Selected(q.allData, Columns(q.datasetKey), query);
  }

  lemma OffsetSteps(o: nat)
    requires o % PageSize == 0
    ensures (o + PageSize) % PageSize == 0
    ensures o >= PageSize ==> (o - PageSize) % PageSize == 0
  {
  }

  lemma PreviousConsistent(s: State)
    requires Consistent(s.page)
    ensures Consistent(PreviousPage(s).next.page)
    ensures forall r :: r in PreviousPage(s).requests ==> WellFormed(r)
  {
    OffsetSteps(s.page.offset);
    ConsistentCarriesOver(s.page, PreviousPage(s).next.page);
  }

  lemma NextConsistent(s: State)
    requires Consistent(s.page)
    ensures Consistent(NextPage(s).next.page)
    ensures forall r :: r in NextPage(s).requests ==> WellFormed(r)
  {
    OffsetSteps(s.page.offset);
    ConsistentCarriesOver(s.page, NextPage(s).next.page);
  }

  lemma EditConsistent(s: State, text: string)
    requires Consistent(s.page)
    ensures Consistent(EditSearch(s, text).page)
  {
    ConsistentCarriesOver(s.page, EditSearch(s, text).page);
  }

  lemma SearchConsistent(s: State)
    requires Consistent(s.page)
    ensures Consistent(PerformSearch(s).next.page) && PerformSearch(s).requests == []
  {
    var p := PerformSearch(s).next.page;
    assert p.filteredData == Selected(p.allData, Columns(p.datasetKey), NormalizeQuery(s.page.searchText));
  }

  lemma LoadConsistent(s: State, reply: PageReply)
    requires Consistent(s.page)
    ensures Consistent(PageLoaded(s, reply).next.page) && PageLoaded(s, reply).requests == []
  {
    if reply.PageBody? {
      var p := PageLoaded(s, reply).next.page;
      EmptyQuerySelectsAll(p.allData, Columns(p.datasetKey));
    }
  }

  lemma StatsConsistent(s: State, reply: StatsReply)
    requires Consistent(s.page)
    ensures Consistent(StatsLoaded(s, reply).page)
  {
    ConsistentCarriesOver(s.page, StatsLoaded(s, reply).page);
  }

  lemma SwitchConsistent(s: State, key: DatasetKey)
    ensures Consistent(SwitchDataset(s, key).next.page)
    ensures forall r :: r in SwitchDataset(s, key).requests ==> WellFormed(r)
  {
    EmptyQuerySelectsAll([], Columns(key));
  }

  /** Every handler keeps the invariants and sends only well-formed
      requests. */
  lemma StepConsistent(s: State, e: Event)
    requires Consistent(s.page)
    ensures Consistent(Step(s, e).next.page)
    ensures forall r :: r in Step(s, e).requests ==> WellFormed(r)
  {
    match e
    case ClickPrevious => PreviousConsistent(s);
    case ClickNext => NextConsistent(s);
    case TypeSearch(text) => EditConsistent(s, text);
    case SubmitSearch => SearchConsistent(s);
    case PageArrived(reply) => LoadConsistent(s, reply);
    case StatsArrived(reply) => StatsConsistent(s, reply);
    case SelectDataset(key) => SwitchConsistent(s, key);
  }

  /** From any consistent state, any sequence of events keeps the
      invariants, and every request sent is well-formed. */
  lemma {:induction false} RunConsistent(s: State, events: seq<Event>)
    requires Consistent(s.page)
    ensures Consistent(Run(s, events).next.page)
    ensures forall r :: r in Run(s, events).requests ==> WellFormed(r)
    decreases |events|
  {
    if events != [] {
      StepConsistent(s, events[0]);
      RunConsistent(Step(s, events[0]).next, events[1..]);
    }
  }

  /** Every state the page can reach is consistent: its offset is a
      multiple of 100 and its filtered rows come from its loaded rows. */
  lemma ReachableConsistent(events: seq<Event>)
    ensures Consistent(Run(Initial(), events).next.page)
    ensures forall r :: r in Start(Initial()).requests + Run(Initial(), events).requests ==> WellFormed(r)
  {
    InitialConsistent();
    RunConsistent(Initial(), events);
  }

  /** The positions `0 .. n-1`: the whole of a sequence as a subsequence of
      itself. */
  function Positions(n: nat): (idx: seq<nat>)
    ensures |idx| == n && forall k :: 0 <= k < n ==> idx[k] == k
  {
    if n == 0 then [] else Positions(n - 1) + [n - 1]
  }

  lemma WholeIsSubsequence(rows: seq<Row>)
    ensures SubsequenceAt(rows, rows, Positions(|rows|))
  {
  }

  /** In a consistent state the filtered rows are an order-preserving
      subsequence of the loaded rows. */
  lemma FilteredIsSubsequence(p: PageState) returns (idx: seq<nat>)
    requires Consistent(p)
    ensures SubsequenceAt(p.filteredData, p.allData, idx)
  {
    var query :| p.filteredData == Selected(p.allData, Columns(p.datasetKey), query);
    if query == [] {
      assert p.filteredData == p.allData;
      WholeIsSubsequence(p.allData);
      idx := Positions(|p.allData|);
    } else {
      assert p.filteredData == Filter(p.allData, Columns(p.datasetKey), query);
      idx := FilterSelects(p.allData, Columns(p.datasetKey), query);
    }
  }

  /** Going forward a page and then back restores the state exactly, and
      reloads the page it started on. */
  lemma NextThenPrevious(s: State)
    ensures PreviousPage(NextPage(s).next) == Effect(s, [PageRequest(s.page)])
  {
  }

  /** Going back a page and then forward restores the state exactly. */
  lemma PreviousThenNext(s: State)
    requires s.page.offset >= PageSize
    ensures NextPage(PreviousPage(s).next).next == s
  {
  }

  /** On the first page `previousPage` does nothing and sends nothing. */
  lemma PreviousOnFirstPage(s: State)
    requires s.page.offset < PageSize
    ensures PreviousPage(s) == Effect(s, [])
  {
  }

  /** `nextPage` does not look at the total: from the last page it requests
      a page that starts at or beyond the last row. */
  lemma NextPastTheEnd(s: State, n: nat)
    requires s.page.totalRows == Known(n) && !CanGoNext(s.page.offset, s.page.totalRows)
    ensures NextPage(s).requests == [PageRequest(NextPage(s).next.page)]
    ensures NextPage(s).next.page.offset >= n
  {
  }

  /** A search with a non-empty query keeps, in order, exactly the loaded
      rows that match it, sends no request, and changes nothing but the
      filtered rows and the display. */
  lemma SearchSelectsFromPage(s: State) returns (idx: seq<nat>)
    requires NormalizeQuery(s.page.searchText) != []
    ensures var after := PerformSearch(s);
            && after.requests == []
            && after.next.page == s.page.(filteredData := after.next.page.filteredData)
            && after.next.screen.stats == s.screen.stats
            && SubsequenceAt(after.next.page.filteredData, s.page.allData, idx)
            && forall i :: 0 <= i < |s.page.allData| ==>
                 (i in idx <==> RowMatches(s.page.allData[i], Columns(s.page.datasetKey), NormalizeQuery(s.page.searchText)))
  {
    idx := FilterSelects(s.page.allData, Columns(s.page.datasetKey), NormalizeQuery(s.page.searchText));
  }

  /** A search whose query trims to nothing shows every loaded row. */
  lemma EmptySearchShowsPage(s: State)
    requires NormalizeQuery(s.page.searchText) == []
    ensures PerformSearch(s).next.page == s.page.(filteredData := s.page.allData)
  {
  }

  /** Searching twice in a row gives what searching once gave. */
  lemma SearchIdempotent(s: State)
    ensures PerformSearch(PerformSearch(s).next) == PerformSearch(s)
  {
  }

  /** A search starts from the loaded rows, not from the previous result:
      the last query alone decides what is shown. */
  lemma LastSearchWins(s: State, first: string, second: string)
    ensures PerformSearch(EditSearch(PerformSearch(EditSearch(s, first)).next, second))
         == PerformSearch(EditSearch(s, second))
  {
  }

  /** A successful load shows the whole new page: the filtered rows become
      the loaded rows (or none when the reply has no rows), even though the
      search box keeps its text; the offset and the dataset stay. */
  lemma LoadShowsWholePage(s: State, rows: Option<seq<Row>>, num: Option<nat>)
    ensures var p := PageLoaded(s, PageBody(rows, num)).next.page;
            && p.allData == rows.GetOr([]) && p.filteredData == p.allData
            && p.searchText == s.page.searchText
            && p.offset == s.page.offset && p.datasetKey == s.page.datasetKey
    ensures PageLoaded(s, PageBody(rows, num)).next.screen.table
         == Some(Table(s.page.offset, rows.GetOr([]), Columns(s.page.datasetKey)))
  {
  }

  /** A load overwrites the total only when the reply states a non-zero
      one; then it also refreshes the statistics line. */
  lemma LoadTotalOnlyWhenReported(s: State, rows: Option<seq<Row>>, num: Option<nat>)
    ensures var after := PageLoaded(s, PageBody(rows, num)).next;
            && (Reported(num) ==> after.page.totalRows == Known(num.value)
                                  && after.screen.stats == StatisticsLine(s.page.offset, Known(num.value)))
            && (!Reported(num) ==> after.page.totalRows == s.page.totalRows && after.screen.stats == s.screen.stats)
  {
  }

  /** A failed load changes nothing: what is shown stays as it was. */
  lemma FailedLoadChangesNothing(s: State, message: string)
    ensures PageLoaded(s, PageError(message)) == Effect(s, [])
  {
  }

  /** The offset moves before the page is fetched and stays moved when the
      fetch fails: the old rows remain loaded and displayed while the offset
      already names the next page, so a later search numbers the old rows
      from the new offset. */
  lemma FailedNextKeepsOldPage(s: State, message: string)
    ensures var after := PageLoaded(NextPage(s).next, PageError(message)).next;
            && after.page == s.page.(offset := s.page.offset + PageSize)
            && after.screen == s.screen
            && PerformSearch(after).next.screen.table
               == Some(Table(s.page.offset + PageSize,
                             ApplySearch(s.page.allData, Columns(s.page.datasetKey), s.page.searchText),
                             Columns(s.page.datasetKey)))
  {
  }

  /** A statistics reply sets the total, to Unknown unless it states a
      non-zero one, refreshes the statistics line, and leaves the table and
      the buttons as they were. */
  lemma StatsSetsTotal(s: State, num: Option<nat>)
    ensures var after := StatsLoaded(s, StatsBody(num));
            && after.page == s.page.(totalRows := if Reported(num) then Known(num.value) else Unknown)
            && after.screen == s.screen.(stats := StatisticsLine(s.page.offset, after.page.totalRows))
  {
  }

  /** A failed statistics read keeps the total and shows the placeholder. */
  lemma StatsFailureKeepsTotal(s: State)
    ensures StatsLoaded(s, StatsError) == s.(screen := s.screen.(stats := StatsUnavailable))
  {
  }

  /** A dataset whose reported total is 0 is treated as one of unknown
      size: when the statistics reply arrives before the empty page, the next
      button is enabled, so the user can page on forever. */
  lemma EmptyDatasetNeverEnds(s: State)
    ensures var after := PageLoaded(StatsLoaded(s, StatsBody(Some(0))), PageBody(Some([]), Some(0))).next;
            && after.screen.table == Some([EmptyPlaceholder(|Columns(s.page.datasetKey)| + 1)])
            && after.screen.pager.Some? && after.screen.pager.value.nextEnabled
  {
  }

  /** The other order of the same replies: when the empty page arrives
      before the statistics, the buttons are drawn from the initial total 0,
      so Next is disabled, and the statistics reply, which sets the total to
      Unknown, does not redraw them. The buttons then disagree with the
      state. */
  lemma EmptyDatasetPageFirst(s: State)
    requires s.page.offset == 0 && s.page.totalRows == Known(0)
    ensures var after := StatsLoaded(PageLoaded(s, PageBody(Some([]), Some(0))).next, StatsBody(Some(0)));
            && after.page.totalRows == Unknown
            && after.screen.pager == Some(Pager(false, false, 1))
            && CanGoNext(after.page.offset, after.page.totalRows)
  {
  }

  /** A dataset switch forgets everything about the previous dataset: the
      page state becomes the initial one for the new dataset whatever it was
      before, the display is left for the coming replies to refresh, and
      exactly one page read and one statistics read are sent. */
  lemma SwitchForgetsHistory(s: State, key: DatasetKey)
    ensures SwitchDataset(s, key).next == State(InitialPage(key), s.screen)
    ensures SwitchDataset(s, key).requests == [Request(key, 0, PageSize), Request(key, 0, 1)]
    ensures InitialPage(key).offset == 0 && InitialPage(key).totalRows == Known(0)
         && InitialPage(key).allData == [] && InitialPage(key).filteredData == []
         && InitialPage(key).searchText == ""
  {
  }
}
