/** The web job list (client/src/pages/Jobs.jsx): the query it sends, the
    status filter buttons, the table cells with their fallbacks, and the
    navigation after a job is created. */
module JobsPage {
  import opened Wrappers
  import opened Strings
  import opened Seqs
  import opened Schema
  import opened Store
  import StatusBadge

  // ---------------------------------------------------------------------------
  // Query
  // ---------------------------------------------------------------------------

  /** The URLSearchParams `load` builds, step by step with `set`. */
  method Params(status: string, search: string) returns (p: map<string, string>)
    ensures "status" in p <==> status != "all"
    ensures "status" in p ==> p["status"] == status
    ensures "search" in p <==> search != ""
    ensures "search" in p ==> p["search"] == search
    ensures forall k :: k in p ==> k == "status" || k == "search"
  {
    p := map[];
    if status != "all" {
      p := p["status" := status];
    }
    if search != "" {
      p := p["search" := search];
    }
  }

  /** The rows `GET /api/jobs` answers to the page's parameters. */
  function Fetch(jobs: seq<Job>, p: map<string, string>): (r: seq<Job>)
    ensures SortedBy(r, NewerFirst)
    ensures multiset(r) <= multiset(jobs)
  {
    ListJobs(jobs, Lookup(p, "status"), Lookup(p, "search"))
  }

  /** A row appears in the list exactly when the 'all' button or its own
      status is selected and the search, if any, hits its company or position. */
  lemma FetchShows(jobs: seq<Job>, p: map<string, string>, status: string, search: string, j: Job)
    requires "status" in p <==> status != "all"
    requires "status" in p ==> p["status"] == status
    requires "search" in p <==> search != ""
    requires "search" in p ==> p["search"] == search
    requires status != ""
    ensures j in Fetch(jobs, p) <==>
      && j in jobs
      && (status == "all" || j.status == Some(status))
      && (search == "" || Like(Some(j.company), search) || Like(Some(j.position), search))
  {
    var st, se := Lookup(p, "status"), Lookup(p, "search");
    assert Truthy(st) <==> status != "all";
    assert Truthy(se) <==> search != "";
    assert JobMatches(j, st, se) <==>
      && (status == "all" || j.status == Some(status))
      && (search == "" || Like(Some(j.company), search) || Like(Some(j.position), search));
  }

  /** What `load` receives for the page's own parameters. */
  lemma FetchOfParams(jobs: seq<Job>, p: map<string, string>, status: string, search: string)
    requires "status" in p <==> status != "all"
    requires "status" in p ==> p["status"] == status
    requires "search" in p <==> search != ""
    requires "search" in p ==> p["search"] == search
    requires status != ""
    ensures Fetch(jobs, p) == ListJobs(jobs, if status == "all" then None else Some(status), if search == "" then None else Some(search))
    ensures forall j :: j in Fetch(jobs, p) <==>
      && j in jobs
      && (status == "all" || j.status == Some(status))
      && (search == "" || Like(Some(j.company), search) || Like(Some(j.position), search))
  {
    assert Lookup(p, "status") == if status == "all" then None else Some(status);
    assert Lookup(p, "search") == if search == "" then None else Some(search);
    forall j ensures j in Fetch(jobs, p) <==>
      && j in jobs
      && (status == "all" || j.status == Some(status))
      && (search == "" || Like(Some(j.company), search) || Like(Some(j.position), search))
    {
      FetchShows(jobs, p, status, search, j);
    }
  }

  /** With 'all' and no search every job is listed, once per row. */
  lemma FetchAllIsEveryJob(jobs: seq<Job>, p: map<string, string>)
    requires p == map[]
    ensures multiset(Fetch(jobs, p)) == multiset(jobs)
  {
    ListJobsUnfiltered(jobs, None, None);
  }

  // ---------------------------------------------------------------------------
  // Filter buttons
  // ---------------------------------------------------------------------------

  /** STATUSES: the buttons, 'all' first. */
  const FilterStatuses: seq<string> := ["all"] + Statuses

  lemma FilterStatusNotBlank(s: string)
    requires s in FilterStatuses
    ensures s != ""
  {
    var k :| 0 <= k < |FilterStatuses| && FilterStatuses[k] == s;
    assert FilterStatuses[k] != "";
  }

  /** `s === 'all' ? 'All' : STATUS_LABELS[s]`. */
  function FilterLabel(s: string): (text: string)
    requires s in FilterStatuses
    ensures s == "all" ==> text == "All"
    ensures s != "all" ==> s in StatusBadge.Labels && text == StatusBadge.Labels[s]
  {
    StatusBadge.TablesCoverStatuses();
    if s == "all" then "All" else StatusBadge.Labels[s]
  }

  /** No two buttons carry the same label. */
  lemma FilterLabelsDistinct(s: string, t: string)
    requires s in FilterStatuses && t in FilterStatuses && s != t
    ensures FilterLabel(s) != FilterLabel(t)
  {
    StatusBadge.LabelsDistinct();
  }

  // ---------------------------------------------------------------------------
  // Table cells
  // ---------------------------------------------------------------------------

  const Dash: string := "—"

  /** `job.applied_date || '—'`. */
  function AppliedCell(appliedDate: Option<string>): (text: string)
    ensures text == Dash <==> !Truthy(appliedDate) || appliedDate.value == Dash
    ensures Truthy(appliedDate) ==> text == appliedDate.value
  {
    if Truthy(appliedDate) then appliedDate.value else Dash
  }

  /** The deadline cell: the date in red, or a gray dash. */
  datatype DeadlineCell = Due(date: string) | NoDeadline

  function DeadlineCellOf(deadline: Option<string>): (c: DeadlineCell)
    ensures c.NoDeadline? <==> !Truthy(deadline)
    ensures c.Due? ==> c.date == deadline.value
  {
    if Truthy(deadline) then Due(deadline.value) else NoDeadline
  }

  /** `job.location || (job.remote ? 'Remote' : '—')`. */
  function LocationCell(location: Option<string>, remote: int): (text: string)
    ensures Truthy(location) ==> text == location.value
    ensures !Truthy(location) && remote != 0 ==> text == "Remote"
    ensures !Truthy(location) && remote == 0 ==> text == Dash
  {
    if Truthy(location) then location.value else if remote != 0 then "Remote" else Dash
  }

  /** The location cell is never blank. */
  lemma LocationCellNeverBlank(location: Option<string>, remote: int)
    ensures LocationCell(location, remote) != ""
  {
  }

  // ---------------------------------------------------------------------------
  // Page state
  // ---------------------------------------------------------------------------

  /** Where the router is. */
  datatype Route = List | JobRoute(id: int)

  class JobsScreen {
    var jobs: seq<Job>
    var status: string
    var search: string
    var showForm: bool
    var route: Route

    constructor()
      ensures jobs == [] && status == "all" && search == "" && !showForm && route == List
    {
      jobs := [];
      status := "all";
      search := "";
      showForm := false;
      route := List;
    }

    /** `load`: the list is replaced by the server's answer to the current filters. */
    method Load(db: Database)
      requires status in FilterStatuses
      modifies this
      ensures jobs == ListJobs(db.tables.jobs, if status == "all" then None else Some(status), if search == "" then None else Some(search))
      ensures forall j :: j in jobs <==>
        && j in db.tables.jobs
        && (status == "all" || j.status == Some(status))
        && (search == "" || Like(Some(j.company), search) || Like(Some(j.position), search))
      ensures status == old(status) && search == old(search) && showForm == old(showForm) && route == old(route)
    {
      var p := Params(status, search);
      FilterStatusNotBlank(status);
      FetchOfParams(db.tables.jobs, p, status, search);
      jobs := Fetch(db.tables.jobs, p);
    }

    /** A filter button. */
    method SelectStatus(s: string)
      requires s in FilterStatuses
      modifies this
      ensures status == s && jobs == old(jobs) && search == old(search) && showForm == old(showForm) && route == old(route)
    {
      status := s;
    }

    /** handleCreate: post the form, close it, and go to the page of the job
        the server returned (Store.CreatedJobDetail: that page shows the new
        row with no contacts and no rounds). A refused insert answers with an
        error page that is not JSON, so `res.json()` rejects and the page
        stays as it was. */
    method Create(db: Database, data: JobInput, now: string)
      requires db.Valid()
      modifies this, db
      ensures db.Valid()
      ensures jobs == old(jobs) && status == old(status) && search == old(search)
      ensures data.company.Some? && data.position.Some? ==>
        && !showForm
        && route == JobRoute(old(db.tables.nextJobId))
        && db.tables == old(db.tables).(jobs := old(db.tables.jobs) + [NewJob(old(db.tables.nextJobId), data, now)],
                                        nextJobId := old(db.tables.nextJobId) + 1)
      ensures data.company.None? || data.position.None? ==>
        showForm == old(showForm) && route == old(route) && db.tables == old(db.tables)
    {
      var r := db.CreateJob(data, now);
      if r.Ok? {
        showForm, route := false, JobRoute(r.value.id);
      }
    }
  }
}
