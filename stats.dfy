/** `GET /api/stats` (server/index.js): a read-only summary of the jobs and
    interview_rounds tables. `today` is date('now') ("YYYY-MM-DD") and `now`
    is datetime('now') ("YYYY-MM-DD HH:MM:SS"), both passed in. */
module Stats {
  import opened Wrappers
  import opened Strings
  import opened Seqs
  import opened Schema
  import opened Store

  /** One row of `SELECT status, COUNT(*) ... GROUP BY status`; a NULL status is a group of its own. */
  datatype StatusCount = StatusCount(status: Option<string>, count: nat)

  /** One row of the interview join: the round's columns plus its job's company and position. */
  datatype RoundWithJob = RoundWithJob(round: Round, company: string, position: string)

  datatype StatsPayload = StatsPayload(
    total: nat,
    byStatus: seq<StatusCount>,
    upcoming: seq<Job>,
    upcomingInterviews: seq<RoundWithJob>)

  // ---------------------------------------------------------------------------
  // COUNT(*) ... GROUP BY status
  // ---------------------------------------------------------------------------

  function StatusIs(s: Option<string>): Job -> bool
  {
    (j: Job) => j.status == s
  }

  /** The status column, row by row. */
  function StatusesOf(jobs: seq<Job>): (r: seq<Option<string>>)
    ensures |r| == |jobs|
    ensures forall i :: 0 <= i < |jobs| ==> r[i] == jobs[i].status
  {
    seq(|jobs|, i requires 0 <= i < |jobs| => jobs[i].status)
  }

  /** One group per key, counting the rows that carry it. */
  function GroupCounts(jobs: seq<Job>, keys: seq<Option<string>>): (r: seq<StatusCount>)
    ensures |r| == |keys|
    ensures forall i :: 0 <= i < |keys| ==> r[i] == StatusCount(keys[i], Count(jobs, StatusIs(keys[i])))
  {
    seq(|keys|, i requires 0 <= i < |keys| => StatusCount(keys[i], Count(jobs, StatusIs(keys[i]))))
  }

  /** The sum of the counts of a list of groups. */
  function TotalCount(groups: seq<StatusCount>): int
  {
    if groups == [] then 0 else TotalCount(groups[..|groups| - 1]) + groups[|groups| - 1].count
  }

  /** The groups in order of first appearance (SQLite promises no order; the
      properties below hold for any). */
  function ByStatus(jobs: seq<Job>): (r: seq<StatusCount>)
    ensures forall i, j :: 0 <= i < j < |r| ==> r[i].status != r[j].status
    ensures forall i :: 0 <= i < |r| ==> r[i].count == Count(jobs, StatusIs(r[i].status))
    ensures forall s :: (exists i :: 0 <= i < |r| && r[i].status == s) <==> s in StatusesOf(jobs)
  {
    var keys := Distinct(StatusesOf(jobs));
    var r := GroupCounts(jobs, keys);
    assert forall s :: (exists i :: 0 <= i < |r| && r[i].status == s) <==> s in keys by {
      forall s ensures (exists i :: 0 <= i < |r| && r[i].status == s) <==> s in keys {
        if s in keys {
          var i :| 0 <= i < |keys| && keys[i] == s;
          assert r[i].status == s;
        }
      }
    }
    r
  }

  /** Every group is non-empty: a status with no row has no group. */
  lemma ByStatusCountsPositive(jobs: seq<Job>)
    ensures forall i :: 0 <= i < |ByStatus(jobs)| ==> ByStatus(jobs)[i].count > 0
  {
    var r := ByStatus(jobs);
    forall i | 0 <= i < |r| ensures r[i].count > 0 {
      var s := r[i].status;
      assert s in StatusesOf(jobs);
      var k :| 0 <= k < |jobs| && StatusesOf(jobs)[k] == s;
      assert jobs[k] in Filter(jobs, StatusIs(s));
    }
  }

  lemma CountSnoc(jobs: seq<Job>, x: Job, s: Option<string>)
    ensures Count(jobs + [x], StatusIs(s)) == Count(jobs, StatusIs(s)) + (if x.status == s then 1 else 0)
  {
    FilterAppend(jobs, [x], StatusIs(s));
    FilterSingleton(x, StatusIs(s));
  }

  /** Adding a row raises the total over distinct keys by one exactly when its key is among them. */
  lemma {:induction false} TotalCountSnoc(jobs: seq<Job>, x: Job, keys: seq<Option<string>>)
    requires forall i, j :: 0 <= i < j < |keys| ==> keys[i] != keys[j]
    ensures TotalCount(GroupCounts(jobs + [x], keys)) == TotalCount(GroupCounts(jobs, keys)) + (if x.status in keys then 1 else 0)
  {
    if keys != [] {
      var ks := keys[..|keys| - 1];
      var k := keys[|keys| - 1];
      assert keys == ks + [k];
      var inKs, isK := x.status in ks, x.status == k;
      var after, afterInit := TotalCount(GroupCounts(jobs + [x], keys)), TotalCount(GroupCounts(jobs + [x], ks));
      var before, beforeInit := TotalCount(GroupCounts(jobs, keys)), TotalCount(GroupCounts(jobs, ks));
      var countAfter, countBefore := Count(jobs + [x], StatusIs(k)), Count(jobs, StatusIs(k));
      assert after == afterInit + countAfter by { GroupCountsSnoc(jobs + [x], ks, k); }
      assert before == beforeInit + countBefore by { GroupCountsSnoc(jobs, ks, k); }
      assert afterInit == beforeInit + (if inKs then 1 else 0) by { TotalCountSnoc(jobs, x, ks); }
      assert countAfter == countBefore + (if isK then 1 else 0) by { CountSnoc(jobs, x, k); }
      assert isK ==> !inKs;
      assert x.status in keys <==> inKs || isK;
    }
  }

  lemma GroupCountsSnoc(jobs: seq<Job>, keys: seq<Option<string>>, k: Option<string>)
    ensures TotalCount(GroupCounts(jobs, keys + [k])) == TotalCount(GroupCounts(jobs, keys)) + Count(jobs, StatusIs(k))
  {
    var g, h := GroupCounts(jobs, keys + [k]), GroupCounts(jobs, keys);
    forall i | 0 <= i < |keys| ensures g[i] == h[i] {
      assert (keys + [k])[i] == keys[i];
    }
    assert g[..|keys|] == h;
    assert g[|keys|].count == Count(jobs, StatusIs(k));
  }

  lemma StatusesOfSnoc(jobs: seq<Job>, x: Job)
    ensures StatusesOf(jobs + [x]) == StatusesOf(jobs) + [x.status]
  {
  }

  /** A status no row carries counts zero. */
  lemma CountAbsent(jobs: seq<Job>, s: Option<string>)
    requires s !in StatusesOf(jobs)
    ensures Count(jobs, StatusIs(s)) == 0
  {
    forall i | 0 <= i < |jobs| ensures !StatusIs(s)(jobs[i]) {
      assert StatusesOf(jobs)[i] == jobs[i].status;
    }
    FilterNone(jobs, StatusIs(s));
  }

  /** The group counts add up to the number of rows. */
  lemma {:induction false} GroupTotal(jobs: seq<Job>)
    ensures TotalCount(GroupCounts(jobs, Distinct(StatusesOf(jobs)))) == |jobs|
  {
    if jobs != [] {
      var init, x := jobs[..|jobs| - 1], jobs[|jobs| - 1];
      assert jobs == init + [x];
      GroupTotal(init);
      var keys := Distinct(StatusesOf(init));
      StatusesOfSnoc(init, x);
      DistinctSnoc(StatusesOf(init), x.status);
      TotalCountSnoc(init, x, keys);
      if x.status !in keys {
        GroupCountsSnoc(jobs, keys, x.status);
        CountSnoc(init, x, x.status);
        CountAbsent(init, x.status);
      }
    }
  }

  /** `byStatus` accounts for every job exactly once: its counts sum to `total`. */
  lemma ByStatusSumsToTotal(jobs: seq<Job>)
    ensures TotalCount(ByStatus(jobs)) == |jobs|
  {
    GroupTotal(jobs);
  }

  // ---------------------------------------------------------------------------
  // Upcoming deadlines
  // ---------------------------------------------------------------------------

  /** The statuses `NOT IN ('offer','rejected','withdrawn')` keeps out. */
  const Closed: seq<string> := ["offer", "rejected", "withdrawn"]

  /** `deadline >= date('now') AND status NOT IN (...)`. A NULL deadline or a
      NULL status makes the condition NULL, so the row is not selected. */
  predicate DeadlineAhead(j: Job, today: string)
    ensures DeadlineAhead(j, today) ==> j.deadline.Some? && j.status.Some?
    ensures DeadlineAhead(j, today) ==>
      j.status != Some("offer") && j.status != Some("rejected") && j.status != Some("withdrawn")
    ensures j.deadline == Some(today) && j.status == Some("applied") ==> DeadlineAhead(j, today)
  {
    TextLeTotal(today, today);
    && j.deadline.Some? && TextLe(today, j.deadline.value)
    && j.status.Some? && j.status.value !in Closed
  }

  function DeadlineAheadOf(today: string): Job -> bool
  {
    (j: Job) => DeadlineAhead(j, today)
  }

  /** `... ORDER BY deadline ASC LIMIT 5`. */
  function Upcoming(jobs: seq<Job>, today: string): (r: seq<Job>)
    ensures var candidates := Filter(jobs, DeadlineAheadOf(today));
      |r| == if |candidates| < 5 then |candidates| else 5
    ensures multiset(r) <= multiset(Filter(jobs, DeadlineAheadOf(today)))
    ensures forall j :: j in r ==> j in jobs && DeadlineAhead(j, today)
    ensures SortedBy(r, EarlierDeadline)
    ensures |Filter(jobs, DeadlineAheadOf(today))| <= 5 ==>
              multiset(r) == multiset(Filter(jobs, DeadlineAheadOf(today)))
    ensures forall j :: j in jobs && DeadlineAhead(j, today) && j !in r ==>
              forall k :: 0 <= k < |r| ==> EarlierDeadline(r[k], j)
  {
    EarlierDeadlineTotalPreorder();
    var r := TopBy(jobs, DeadlineAheadOf(today), EarlierDeadline, 5);
    assert forall j :: DeadlineAheadOf(today)(j) == DeadlineAhead(j, today);
    r
  }

  // ---------------------------------------------------------------------------
  // Upcoming interviews
  // ---------------------------------------------------------------------------

  /** The joined row for a round, or None when no job has its job_id. */
  function JoinJob(x: Round, jobs: seq<Job>): (r: Option<RoundWithJob>)
    ensures r.None? <==> !HasKey(jobs, JobKey, x.jobId)
    ensures r.Some? ==> r.value.round == x
  {
    match FindKey(jobs, JobKey, x.jobId)
    case None => None
    case Some(j) => Some(RoundWithJob(x, j.company, j.position))
  }

  /** `interview_rounds ir JOIN jobs j ON ir.job_id = j.id`, in rounds order. */
  function JoinJobs(rounds: seq<Round>, jobs: seq<Job>): (r: seq<RoundWithJob>)
    ensures forall u :: u in r <==> u.round in rounds && JoinJob(u.round, jobs) == Some(u)
  {
    if rounds == [] then []
    else
      var rest := JoinJobs(rounds[1..], jobs);
      assert rounds == [rounds[0]] + rounds[1..];
      match JoinJob(rounds[0], jobs)
      case None => rest
      case Some(u) => [u] + rest
  }

  /** `ir.scheduled_date >= datetime('now')`; a NULL date is never selected. */
  predicate ScheduledFrom(u: RoundWithJob, now: string)
  {
    u.round.scheduledDate.Some? && TextLe(now, u.round.scheduledDate.value)
  }

  function ScheduledFromOf(now: string): RoundWithJob -> bool
  {
    (u: RoundWithJob) => ScheduledFrom(u, now)
  }

  /** ORDER BY ir.scheduled_date ASC. */
  predicate EarlierScheduled(a: RoundWithJob, b: RoundWithJob)
  {
    OptTextLe(a.round.scheduledDate, b.round.scheduledDate)
  }

  lemma EarlierScheduledTotalPreorder()
    ensures TotalPreorder(EarlierScheduled)
  {
    OptTextLeTotalPreorder();
  }

  /** `... ORDER BY ir.scheduled_date ASC LIMIT 5`. Each row is a round whose
      job exists, scheduled from now on, carrying that job's company and position. */
  function UpcomingInterviews(rounds: seq<Round>, jobs: seq<Job>, now: string): (r: seq<RoundWithJob>)
    ensures var candidates := Filter(JoinJobs(rounds, jobs), ScheduledFromOf(now));
      |r| == if |candidates| < 5 then |candidates| else 5
    ensures multiset(r) <= multiset(Filter(JoinJobs(rounds, jobs), ScheduledFromOf(now)))
    ensures forall u :: u in r ==> u.round in rounds && ScheduledFrom(u, now) && JoinJob(u.round, jobs) == Some(u)
    ensures SortedBy(r, EarlierScheduled)
    ensures |Filter(JoinJobs(rounds, jobs), ScheduledFromOf(now))| <= 5 ==>
              multiset(r) == multiset(Filter(JoinJobs(rounds, jobs), ScheduledFromOf(now)))
    ensures forall u :: u in JoinJobs(rounds, jobs) && ScheduledFrom(u, now) && u !in r ==>
              forall k :: 0 <= k < |r| ==> EarlierScheduled(r[k], u)
  {
    EarlierScheduledTotalPreorder();
    var r := TopBy(JoinJobs(rounds, jobs), ScheduledFromOf(now), EarlierScheduled, 5);
    assert forall u :: ScheduledFromOf(now)(u) == ScheduledFrom(u, now);
    r
  }

  /** A joined row carries the company and position of the job its round belongs to. */
  lemma JoinedRowNamesItsJob(u: RoundWithJob, jobs: seq<Job>)
    requires JoinJob(u.round, jobs) == Some(u)
    ensures exists j :: j in jobs && j.id == u.round.jobId && u.company == j.company && u.position == j.position
  {
    var j := FindKey(jobs, JobKey, u.round.jobId).value;
    assert j in jobs && j.id == u.round.jobId;
  }

  // ---------------------------------------------------------------------------
  // The payload
  // ---------------------------------------------------------------------------

  /** `GET /api/stats`: the job count, the status grouping, and the two
      five-row lists, each part as specified above. */
  function GetStats(jobs: seq<Job>, rounds: seq<Round>, today: string, now: string): (r: StatsPayload)
    ensures r.total == |jobs|
    ensures r.byStatus == ByStatus(jobs) && TotalCount(r.byStatus) == r.total
    ensures r.upcoming == Upcoming(jobs, today)
    ensures r.upcomingInterviews == UpcomingInterviews(rounds, jobs, now)
    ensures |r.upcoming| <= 5 && |r.upcomingInterviews| <= 5
  {
    ByStatusSumsToTotal(jobs);
    StatsPayload(|jobs|, ByStatus(jobs), Upcoming(jobs, today), UpcomingInterviews(rounds, jobs, now))
  }

  /** An interview stored as "YYYY-MM-DDTHH:MM" (the form's datetime-local
      value) counts as upcoming all day: 'T' sorts after the ' ' of
      datetime('now'), so its time of day is never compared. */
  lemma SameDayIsUpcoming(date: string, time: string, nowTime: string)
    requires |date| == 10
    ensures TextLe(date + " " + nowTime, date + "T" + time)
    ensures !TextLe(date + "T" + time, date + " " + nowTime)
  {
    var a, b := date + " " + nowTime, date + "T" + time;
    assert a[..10] == date == b[..10];
    TextLeFirstDifference(a, b, 10);
  }
}
