/** The Analytics page (client/src/pages/Analytics.jsx): the KPI cards derived
    from the stats payload, the bar chart's scale, the weekly chart's axis
    labels and the donut's percentages. Chart geometry is floating point and
    is not part of this model. */
module Analytics {
  import opened Wrappers
  import opened Strings
  import opened Seqs
  import opened Rounding
  import opened Schema
  import opened Stats
  import opened StatusMap

  /** The statuses the "Active Pipeline" card adds up; 'applied' is not among them. */
  const ActiveStatuses: seq<string> := ["phone_screen", "oa", "technical", "onsite"]

  /** `stats.total || 1`: the divisor of every rate. */
  function Divisor(total: nat): (d: nat)
    ensures d >= 1
    ensures total > 0 ==> d == total
  {
    if total == 0 then 1 else total
  }

  /** `byStatus.filter(s => s.status !== 'applied').reduce((a, s) => a + s.count, 0)`.
      A NULL status is not 'applied', so its group counts as responded. */
  function Responded(byStatus: seq<StatusCount>): (n: nat)
    ensures n <= TotalCount(byStatus)
  {
    if byStatus == [] then 0
    else
      var last := byStatus[|byStatus| - 1];
      Responded(byStatus[..|byStatus| - 1]) + (if last.status != Some("applied") then last.count else 0)
  }

  /** The five KPI cards. */
  datatype Kpis = Kpis(
    total: nat,
    responded: nat,
    responseRate: int,
    activeCount: nat,
    offers: nat,
    offerRate: int,
    rejected: nat,
    rejectionRate: int)

  /** Every rate is `Math.round(count / (total || 1) * 100)` and lies in 0..100
      when its count does not exceed the total. */
  function KpisOf(stats: StatsPayload): (k: Kpis)
    ensures k.total == stats.total
    ensures k.responded == Responded(stats.byStatus)
    ensures k.activeCount == SumOver(stats.byStatus, ActiveStatuses)
    ensures k.offers == CountOf(stats.byStatus, "offer")
    ensures k.rejected == CountOf(stats.byStatus, "rejected")
    ensures k.responseRate == Percent(k.responded, Divisor(stats.total))
    ensures k.offerRate == Percent(k.offers, Divisor(stats.total))
    ensures k.rejectionRate == Percent(k.rejected, Divisor(stats.total))
    ensures k.responded <= stats.total ==> 0 <= k.responseRate <= 100
    ensures k.offers <= stats.total ==> 0 <= k.offerRate <= 100
    ensures k.rejected <= stats.total ==> 0 <= k.rejectionRate <= 100
  {
    var d := Divisor(stats.total);
    var responded := Responded(stats.byStatus);
    var offers := CountOf(stats.byStatus, "offer");
    var rejected := CountOf(stats.byStatus, "rejected");
    Kpis(stats.total, responded, Percent(responded, d), SumOver(stats.byStatus, ActiveStatuses),
         offers, Percent(offers, d), rejected, Percent(rejected, d))
  }

  /** Everything but 'applied': with one entry per status, responded and the
      'applied' count add up to the whole. */
  lemma {:induction false} RespondedPlusApplied(byStatus: seq<StatusCount>)
    requires DistinctStatuses(byStatus)
    ensures Responded(byStatus) + CountOf(byStatus, "applied") == TotalCount(byStatus)
  {
    if byStatus != [] {
      var prefix, last := byStatus[..|byStatus| - 1], byStatus[|byStatus| - 1];
      assert DistinctStatuses(prefix);
      RespondedPlusApplied(prefix);
      if last.status == Some("applied") {
        forall i | 0 <= i < |prefix| ensures KeyOf(prefix[i].status) != "applied" {
          assert prefix[i].status != last.status;
        }
      }
    }
  }

  /** On the server's grouping, responded is the number of jobs not in 'applied'. */
  lemma RespondedByStatus(jobs: seq<Job>)
    ensures Responded(ByStatus(jobs)) == |jobs| - Count(jobs, StatusIs(Some("applied")))
  {
    RespondedPlusApplied(ByStatus(jobs));
    ByStatusSumsToTotal(jobs);
    CountOfByStatus(jobs, "applied");
  }

  /** The cards computed from the server's payload: each count is the number of
      jobs in its statuses, a status with no job adds 0, and every rate is that
      number as a rounded percentage of all jobs, in 0..100. */
  lemma KpisOfServerStats(jobs: seq<Job>, stats: StatsPayload)
    requires stats.total == |jobs| && stats.byStatus == ByStatus(jobs)
    ensures var k := KpisOf(stats);
      && k.responded == |jobs| - Count(jobs, StatusIs(Some("applied")))
      && k.activeCount == Count(jobs, StatusAmong(ActiveStatuses))
      && k.offers == Count(jobs, StatusIs(Some("offer")))
      && k.rejected == Count(jobs, StatusIs(Some("rejected")))
      && k.responseRate == Percent(|jobs| - Count(jobs, StatusIs(Some("applied"))), Divisor(|jobs|))
      && k.offerRate == Percent(Count(jobs, StatusIs(Some("offer"))), Divisor(|jobs|))
      && k.rejectionRate == Percent(Count(jobs, StatusIs(Some("rejected"))), Divisor(|jobs|))
      && 0 <= k.responseRate <= 100 && 0 <= k.offerRate <= 100 && 0 <= k.rejectionRate <= 100
  {
    RespondedByStatus(jobs);
    ActiveByStatus(jobs);
    CountOfByStatus(jobs, "offer");
    CountOfByStatus(jobs, "rejected");
  }

  /** On the server's grouping, the active pipeline is the number of jobs in
      one of the four interview stages. */
  lemma ActiveByStatus(jobs: seq<Job>)
    ensures SumOver(ByStatus(jobs), ActiveStatuses) == Count(jobs, StatusAmong(ActiveStatuses))
  {
    SumOverByStatus(jobs, ActiveStatuses);
  }

  /** With no jobs the divisor is 1, so every rate is 0 rather than NaN. */
  lemma KpisOfEmptyStore(rounds: seq<Round>, today: string, now: string)
    ensures KpisOf(GetStats([], rounds, today, now)) == Kpis(0, 0, 0, 0, 0, 0, 0, 0)
  {
    var stats := GetStats([], rounds, today, now);
    KpisOfServerStats([], stats);
    assert Percent(0, 1) == 0;
  }

  // ---------------------------------------------------------------------------
  // Charts
  // ---------------------------------------------------------------------------

  /** `Math.max(...data.map(d => d.count), 1)`: the bar chart's full-width value. */
  function BarMax(data: seq<StatusCount>): (m: nat)
    ensures m >= 1
    ensures forall i :: 0 <= i < |data| ==> data[i].count <= m
    ensures m == 1 || exists i :: 0 <= i < |data| && data[i].count == m
  {
    if data == [] then 1
    else
      var rest := BarMax(data[1..]);
      if data[0].count > rest then data[0].count
      else
        assert forall i :: 1 <= i < |data| ==> data[i] == data[1..][i - 1];
        rest
  }

  /** The x-axis label of a week key: `split('-W')[1]` when it is non-empty,
      prefixed by 'W'; otherwise the key itself (None for a missing key). */
  function WeekLabel(week: Option<string>): (r: Option<string>)
    ensures week.None? ==> r.None?
    ensures r != week ==> r.Some? && |r.value| >= 2 && r.value[0] == 'W'
  {
    var parts := Split(if week.Some? then week.value else "", "-W");
    if |parts| > 1 && parts[1] != "" then Some("W" + parts[1]) else week
  }

  /** Text with no '-W' is shown unchanged. */
  lemma WeekLabelWithoutMarker(week: string)
    requires forall j :: !OccursAt(week, "-W", j)
    ensures WeekLabel(Some(week)) == Some(week)
  {
  }

  /** An ISO week key "YYYY-Www" is labelled "Www". */
  lemma {:induction false} WeekLabelOfIsoWeek(year: string, week: string)
    requires forall j :: !OccursAt(year, "-W", j)
    requires forall j :: !OccursAt(week, "-W", j)
    requires week != ""
    ensures WeekLabel(Some(year + "-W" + week)) == Some("W" + week)
  {
    var s := year + "-W" + week;
    forall j | 0 <= j < |year| ensures !OccursAt(s, "-W", j) {
      if j + 2 <= |year| {
        assert s[j..j + 2] == year[j..j + 2];
        assert !OccursAt(year, "-W", j);
      } else {
        assert s[|year|] == '-';
        assert s[j..j + 2][1] == s[j + 1];
      }
    }
    assert OccursAt(s, "-W", |year|);
    assert IndexOf(s, "-W") == Some(|year|);
    assert s[|year| + 2..] == week;
    assert Split(week, "-W") == [week];
  }

  /** One donut slice with its whole percentage of the total. */
  datatype Slice = Slice(status: Option<string>, count: nat, percent: int)

  /** The donut: None is the "No data" text (no entries, or counts summing to 0);
      otherwise each slice's percentage is its count over the total, rounded. */
  function Donut(data: seq<StatusCount>): (r: Option<seq<Slice>>)
    ensures r.None? <==> TotalCount(data) == 0
    ensures r.Some? ==> |r.value| == |data|
    ensures r.Some? ==> forall i :: 0 <= i < |data| ==>
      && r.value[i].status == data[i].status && r.value[i].count == data[i].count
      && 0 <= r.value[i].percent <= 100
      && 2 * TotalCount(data) * r.value[i].percent <= 200 * data[i].count + TotalCount(data)
             < 2 * TotalCount(data) * r.value[i].percent + 2 * TotalCount(data)
  {
    var total := TotalCount(data);
    if data == [] || total == 0 then None
    else
      CountsBelowTotal(data);
      Some(seq(|data|, i requires 0 <= i < |data| => Slice(data[i].status, data[i].count, Percent(data[i].count, total))))
  }

  /** Every count is at most the sum of all counts. */
  lemma {:induction false} CountsBelowTotal(data: seq<StatusCount>)
    ensures TotalCount(data) >= 0
    ensures forall i :: 0 <= i < |data| ==> data[i].count <= TotalCount(data)
  {
    if data != [] {
      var prefix := data[..|data| - 1];
      CountsBelowTotal(prefix);
      assert forall i :: 0 <= i < |prefix| ==> data[i] == prefix[i];
    }
  }

  /** On the server's grouping the donut's centre shows the number of jobs. */
  lemma DonutOfServerStats(jobs: seq<Job>)
    ensures Donut(ByStatus(jobs)).None? <==> jobs == []
  {
    ByStatusSumsToTotal(jobs);
  }
}
