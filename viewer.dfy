/** The page itself: its module-level variables as the fields of one
    object, and its handlers as methods that update them in place. Each
    method is specified by the transition of `PageModel` it performs, and
    keeps that model's invariants. */
module ViewerApp {
  import opened Wrappers
  import opened Rows
  import opened Datasets
  import opened Search
  import opened Views
  import PageModel

  class Viewer {
    var datasetKey: DatasetKey
    var offset: nat
    var allData: seq<Row>
    var filteredData: seq<Row>
    var totalRows: Total
    var searchText: string
    var table: Option<seq<TableRow>>
    var pager: Option<Pager>
    var stats: StatsLine

    /** The value the fields stand for. */
    function Model(): PageModel.State
      reads this
    {
      PageModel.State(
        PageModel.PageState(datasetKey, offset, allData, filteredData, totalRows, searchText),
        PageModel.Screen(table, pager, stats))
    }

    /** The offset is on a page boundary and the filtered rows come from the
        loaded rows. */
    ghost predicate Valid()
      reads this
    {
      PageModel.Consistent(Model().page)
    }

    /** The variables' initial values. */
    constructor ()
      ensures Valid()
      ensures Model() == PageModel.Initial()
    {
      datasetKey := Alpaca;
      offset := 0;
      allData := [];
      filteredData := [];
      totalRows := Known(0);
      searchText := "";
      table := None;
      pager := None;
      stats := FromMarkup;
      PageModel.InitialConsistent();
    }

    /** The page has loaded: `loadDictionary()`, then `loadStatistics()`. */
    method Start() returns (requests: seq<PageModel.Request>)
      ensures requests == PageModel.Start(Model()).requests
      ensures |requests| == 2 && requests[0].offset == offset && requests[0].length == PageSize
    {
      requests := [PageModel.Request(datasetKey, offset, PageSize), PageModel.Request(datasetKey, 0, 1)];
    }

    /** `previousPage`. */
    method PreviousPage() returns (requests: seq<PageModel.Request>)
      requires Valid()
      modifies this
      ensures Valid()
      ensures PageModel.Effect(Model(), requests) == PageModel.PreviousPage(old(Model()))
    {
      PageModel.PreviousConsistent(Model());
      requests := [];
      if offset >= PageSize {
        offset := offset - PageSize;
        requests := [PageModel.Request(datasetKey, offset, PageSize)];
      }
    }

    /** `nextPage`. */
    method NextPage() returns (requests: seq<PageModel.Request>)
      requires Valid()
      modifies this
      ensures Valid()
      ensures PageModel.Effect(Model(), requests) == PageModel.NextPage(old(Model()))
    {
      PageModel.NextConsistent(Model());
      offset := offset + PageSize;
      requests := [PageModel.Request(datasetKey, offset, PageSize)];
    }

    /** The user edits the search box. */
    method EditSearchText(text: string)
      requires Valid()
      modifies this
      ensures Valid()
      ensures Model() == PageModel.EditSearch(old(Model()), text)
    {
      PageModel.EditConsistent(Model(), text);
      searchText := text;
    }

    /** `renderTable()` followed by `updatePaginationButtons()`. */
    method Redisplay()
      modifies this
      ensures Model() == old(Model()).(screen := PageModel.Redisplay(old(Model()).page, old(Model()).screen))
    {
      var rows := RenderTable(offset, filteredData, Columns(datasetKey));
      table := Some(rows);
      pager := Some(PaginationControls(offset, totalRows));
    }

    /** `performSearch`. */
    method PerformSearch()
      requires Valid()
      modifies this
      ensures Valid()
      ensures PageModel.Effect(Model(), []) == PageModel.PerformSearch(old(Model()))
    {
      PageModel.SearchConsistent(Model());
      var query := NormalizeQuery(searchText);
      if query == [] {
        filteredData := allData;
      } else {
        filteredData := Filter(allData, Columns(datasetKey), query);
      }
      Redisplay();
    }

    /** The completion of `loadDictionary`, with the outcome of its
        request. */
    method CompleteLoad(reply: PageModel.PageReply)
      requires Valid()
      modifies this
      ensures Valid()
      ensures PageModel.Effect(Model(), []) == PageModel.PageLoaded(old(Model()), reply)
    {
      PageModel.LoadConsistent(Model(), reply);
      match reply
      case PageError(_) =>
      case PageBody(rows, num) =>
        allData := rows.GetOr([]);
        filteredData := allData;
        if num.Some? && num.value != 0 {
          totalRows := Known(num.value);
          stats := StatisticsLine(offset, totalRows);
        }
        Redisplay();
    }

    /** The completion of `loadStatistics`, with the outcome of its
        request. */
    method CompleteStats(reply: PageModel.StatsReply)
      requires Valid()
      modifies this
      ensures Valid()
      ensures Model() == PageModel.StatsLoaded(old(Model()), reply)
    {
      PageModel.StatsConsistent(Model(), reply);
      match reply
      case StatsError =>
        stats := StatsUnavailable;
      case StatsBody(num) =>
        totalRows := if num.Some? && num.value != 0 then Known(num.value) else Unknown;
        stats := StatisticsLine(offset, totalRows);
    }

    /** The dataset selector's change handler. */
    method SwitchDataset(key: DatasetKey) returns (requests: seq<PageModel.Request>)
      modifies this
      ensures Valid()
      ensures PageModel.Effect(Model(), requests) == PageModel.SwitchDataset(old(Model()), key)
    {
      PageModel.SwitchConsistent(Model(), key);
      datasetKey := key;
      offset := 0;
      totalRows := Known(0);
      allData := [];
      filteredData := [];
      searchText := "";
      requests := [PageModel.Request(key, 0, PageSize), PageModel.Request(key, 0, 1)];
    }
  }

  /** A short session: a first page of `rows` out of 250 loads, the user
      goes forward, and that load fails. The viewer asked for rows 100-199
      and its offset names the second page, while the screen still shows the
      first page's table, its buttons (previous disabled, next enabled) with
      the label of page 1, and its statistics line. */
  method FailedNextSession(rows: seq<Row>) returns (requested: PageModel.Request, offsetAfter: nat,
                                                    shownBefore: PageModel.Screen, shownAfter: PageModel.Screen)
    ensures requested == PageModel.Request(Alpaca, 100, 100)
    ensures offsetAfter == 100
    ensures shownAfter == shownBefore
    ensures shownAfter.table == Some(Table(0, rows, Columns(Alpaca)))
    ensures shownAfter.pager == Some(Pager(false, true, 1))
    ensures shownAfter.stats == TotalAndRange(250, Range(1, 100))
  {
    var v := new Viewer();
    var first := v.Start();
    v.CompleteLoad(PageModel.PageBody(Some(rows), Some(250)));
    shownBefore := v.Model().screen;
    var second := v.NextPage();
    requested := second[0];
    v.CompleteLoad(PageModel.PageError("Failed to fetch dictionary data"));
    shownAfter := v.Model().screen;
    offsetAfter := v.offset;
  }
}
