/** The mobile Dashboard screen (job-tracker-mobile/app/index.js): the stats
    fetch with its try/finally, pull-to-refresh, and which of the three
    screens (spinner, failure text, board) is shown. The card sums are the web
    Dashboard's. */
module MobileDashboard {
  import opened Wrappers
  import opened Seqs
  import opened Schema
  import opened Stats
  import opened StatusMap
  import opened Dashboard

  /** What the screen renders. */
  datatype Screen =
    | Spinner
    | Failed
    | Board(cards: Cards, deadlines: Option<seq<UpcomingLine>>)

  /** `if (loading) … if (!stats) … else` the board. */
  function ScreenOf(loading: bool, stats: Option<StatsPayload>): (v: Screen)
    ensures v.Spinner? <==> loading
    ensures v.Failed? <==> !loading && stats.None?
    ensures v.Board? ==> stats.Some? && v.cards == CardsOf(stats.value)
    ensures v.Board? ==> (v.deadlines.None? <==> |stats.value.upcoming| == 0)
  {
    if loading then Spinner
    else if stats.None? then Failed
    else Board(CardsOf(stats.value), DeadlineLines(stats.value.upcoming))
  }

  /** The board built from the server's payload: "In Progress" counts the jobs
      in the five pipeline statuses, Offers and Rejected count their jobs and
      show 0 when that status is absent. */
  lemma BoardOfServerStats(jobs: seq<Job>, stats: StatsPayload)
    requires stats.total == |jobs| && stats.byStatus == ByStatus(jobs)
    ensures var v := ScreenOf(false, Some(stats));
      && v.Board?
      && v.cards.total == |jobs|
      && v.cards.inProgress == Count(jobs, StatusAmong(InProgressStatuses))
      && v.cards.offers == Count(jobs, StatusIs(Some("offer")))
      && v.cards.rejected == Count(jobs, StatusIs(Some("rejected")))
  {
    CardsOfServerStats(jobs, stats);
  }

  /** The screen's state: `stats`, `loading` and `refreshing`. */
  class DashboardScreen {
    var stats: Option<StatsPayload>
    var loading: bool
    var refreshing: bool

    /** `useState(null)`, `useState(true)`, `useState(false)`. */
    constructor()
      ensures stats == None && loading && !refreshing
    {
      stats := None;
      loading := true;
      refreshing := false;
    }

    function Current(): (v: Screen)
      reads this
      ensures v == ScreenOf(loading, stats)
    {
      ScreenOf(loading, stats)
    }

    /** `fetchStats`: `response` is the request's payload, None when it throws.
        A failure keeps the previous payload; `loading` is cleared either way. */
    method FetchStats(response: Option<StatsPayload>)
      modifies this
      ensures stats == (if response.Some? then response else old(stats))
      ensures !loading && refreshing == old(refreshing)
      ensures !Current().Spinner?
      ensures response.None? && old(stats).None? ==> Current() == Failed
      ensures response.Some? ==> Current() == ScreenOf(false, response)
    {
      if response.Some? {
        stats := response;
      }
      loading := false;
    }

    /** `onRefresh`: raise the indicator, fetch, lower it. A failed refresh
        leaves the board that was shown. */
    method Refresh(response: Option<StatsPayload>)
      modifies this
      ensures stats == (if response.Some? then response else old(stats))
      ensures !loading && !refreshing
      ensures response.None? && old(stats).Some? ==> Current() == ScreenOf(false, old(stats))
    {
      refreshing := true;
      FetchStats(response);
      refreshing := false;
    }
  }

  /** Mounting runs one fetch: a failing first request shows the failure text,
      a successful one shows the board for its payload. */
  method Mount(response: Option<StatsPayload>) returns (screen: DashboardScreen)
    ensures fresh(screen)
    ensures response.None? ==> screen.Current() == Failed
    ensures response.Some? ==> screen.Current() == ScreenOf(false, response) && screen.Current().Board?
  {
    screen := new DashboardScreen();
    screen.FetchStats(response);
  }
}
