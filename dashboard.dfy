/** The web Dashboard (client/src/pages/Dashboard.jsx): four stat cards, the
    pipeline breakdown, and the upcoming deadline and interview lists. */
module Dashboard {
  import opened Wrappers
  import opened Strings
  import opened Seqs
  import opened Schema
  import opened Stats
  import opened StatusMap
  import Analytics

  /** The statuses the "In Progress" card adds up; unlike the Analytics page it includes 'applied'. */
  const InProgressStatuses: seq<string> := ["applied", "phone_screen", "oa", "technical", "onsite"]

  /** The card values: Total Applied, In Progress, Offers, Rejected. */
  datatype Cards = Cards(total: nat, inProgress: nat, offers: nat, rejected: nat)

  /** "In Progress" is the Analytics page's active pipeline plus the 'applied' count. */
  function CardsOf(stats: StatsPayload): (c: Cards)
    ensures c.total == stats.total
    ensures c.inProgress == CountOf(stats.byStatus, "applied") + Analytics.KpisOf(stats).activeCount
    ensures c.offers == Analytics.KpisOf(stats).offers && c.rejected == Analytics.KpisOf(stats).rejected
  {
    assert InProgressStatuses == ["applied"] + Analytics.ActiveStatuses;
    SumOverAppend(stats.byStatus, ["applied"], Analytics.ActiveStatuses);
    Cards(stats.total, SumOver(stats.byStatus, InProgressStatuses),
          CountOf(stats.byStatus, "offer"), CountOf(stats.byStatus, "rejected"))
  }

  /** On the server's payload each card counts the jobs in its statuses; a
      status with no job contributes 0. */
  lemma CardsOfServerStats(jobs: seq<Job>, stats: StatsPayload)
    requires stats.total == |jobs| && stats.byStatus == ByStatus(jobs)
    ensures var c := CardsOf(stats);
      && c.total == |jobs|
      && c.inProgress == Count(jobs, StatusAmong(InProgressStatuses))
      && c.offers == Count(jobs, StatusIs(Some("offer")))
      && c.rejected == Count(jobs, StatusIs(Some("rejected")))
      && c.inProgress <= c.total
  {
    SumOverByStatus(jobs, InProgressStatuses);
    CountOfByStatus(jobs, "offer");
    CountOfByStatus(jobs, "rejected");
  }

  /** `stats.byStatus.length > 0 && ...`: the breakdown panel is rendered. */
  predicate ShowsPipeline(stats: StatsPayload)
  {
    |stats.byStatus| > 0
  }

  /** With the server's grouping the breakdown shows exactly when some job exists. */
  lemma ShowsPipelineIffJobs(jobs: seq<Job>, stats: StatsPayload)
    requires stats.byStatus == ByStatus(jobs)
    ensures ShowsPipeline(stats) <==> |jobs| > 0
  {
    if |jobs| > 0 {
      assert StatusesOf(jobs)[0] in StatusesOf(jobs);
    }
  }

  /** ROUND_LABELS. */
  const RoundLabels: map<string, string> := map[
    "hr_screen" := "HR Screen", "phone_screen" := "Phone Screen", "online_assessment" := "OA",
    "technical" := "Technical", "system_design" := "System Design", "behavioral" := "Behavioral",
    "onsite" := "Onsite", "other" := "Other"]

  /** `ROUND_LABELS[iv.round_type] ?? iv.round_type`. */
  function RoundLabel(roundType: string): (shown: string)
    ensures roundType in RoundLabels ==> shown == RoundLabels[roundType]
    ensures roundType !in RoundLabels ==> shown == roundType
  {
    if roundType in RoundLabels then RoundLabels[roundType] else roundType
  }

  /** `iv.scheduled_date?.replace('T', ' ')`: only the first 'T' becomes a space. */
  function ScheduledText(date: Option<string>): (r: Option<string>)
    ensures r.None? <==> date.None?
    ensures r.Some? ==> |r.value| == |date.value|
    ensures r.Some? ==> forall k :: 0 <= k < |date.value| && k != FirstIndex(date.value, 'T') ==> r.value[k] == date.value[k]
    ensures r.Some? && FirstIndex(date.value, 'T') < |date.value| ==> r.value[FirstIndex(date.value, 'T')] == ' '
  {
    if date.None? then None else Some(ReplaceFirst(date.value, 'T', ' '))
  }

  /** A value stored from a datetime-local input, "YYYY-MM-DDTHH:MM", reads
      "YYYY-MM-DD HH:MM". */
  lemma ScheduledTextOfLocalDateTime(day: string, time: string)
    requires 'T' !in day
    ensures ScheduledText(Some(day + "T" + time)) == Some(day + " " + time)
  {
    var s := day + "T" + time;
    assert FirstIndex(s, 'T') == |day| by {
      assert s[|day|] == 'T';
      assert forall j :: 0 <= j < |day| ==> s[j] == day[j];
    }
    var r := ScheduledText(Some(s)).value;
    assert r == day + " " + time by {
      forall k | 0 <= k < |r| ensures r[k] == (day + " " + time)[k] {
        if k < |day| {
          assert r[k] == s[k] == day[k];
        } else if k > |day| {
          assert r[k] == s[k];
        }
      }
    }
  }

  /** One line of an upcoming list: a link title and the date shown beside it. */
  datatype UpcomingLine = UpcomingLine(linkId: int, title: string, date: Option<string>)

  /** The deadlines panel: None is the "No upcoming deadlines" text. */
  function DeadlineLines(upcoming: seq<Job>): (r: Option<seq<UpcomingLine>>)
    ensures r.None? <==> |upcoming| == 0
    ensures r.Some? ==> |r.value| == |upcoming| && forall i :: 0 <= i < |upcoming| ==>
      r.value[i] == UpcomingLine(upcoming[i].id, upcoming[i].company + " — " + upcoming[i].position, upcoming[i].deadline)
  {
    if |upcoming| == 0 then None
    else Some(seq(|upcoming|, i requires 0 <= i < |upcoming| =>
      UpcomingLine(upcoming[i].id, upcoming[i].company + " — " + upcoming[i].position, upcoming[i].deadline)))
  }

  /** The interviews panel: None is the "No upcoming interviews scheduled" text.
      Each line links to the round's job, under the round's label. */
  function InterviewLines(interviews: seq<RoundWithJob>): (r: Option<seq<(UpcomingLine, string)>>)
    ensures r.None? <==> |interviews| == 0
    ensures r.Some? ==> |r.value| == |interviews| && forall i :: 0 <= i < |interviews| ==>
      && r.value[i].0 == UpcomingLine(interviews[i].round.jobId, interviews[i].company, ScheduledText(interviews[i].round.scheduledDate))
      && r.value[i].1 == RoundLabel(interviews[i].round.roundType)
  {
    if |interviews| == 0 then None
    else Some(seq(|interviews|, i requires 0 <= i < |interviews| =>
      (UpcomingLine(interviews[i].round.jobId, interviews[i].company, ScheduledText(interviews[i].round.scheduledDate)),
       RoundLabel(interviews[i].round.roundType))))
  }
}
