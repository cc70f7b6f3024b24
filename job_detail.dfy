/** The job page (client/src/pages/JobDetail.jsx): the star rating, the
    priority request, the activity timeline's icon and timestamp, the note box,
    the salary line and the interview labels. */
module JobDetail {
  import opened Wrappers
  import opened Strings
  import opened Schema
  import opened Store

  // ---------------------------------------------------------------------------
  // Star rating
  // ---------------------------------------------------------------------------

  /** `onChange(star === value ? 0 : star)`: clicking the current rating clears it. */
  function StarClick(star: int, value: int): (p: int)
    requires 1 <= star <= 5
    ensures 0 <= p <= 5
    ensures p == 0 <==> star == value
    ensures p != 0 ==> p == star
  {
    if star == value then 0 else star
  }

  /** A second click on the same star undoes the first when the rating was
      that star or nothing; otherwise it clears the rating. */
  lemma StarClickTwice(star: int, value: int)
    requires 1 <= star <= 5
    ensures StarClick(star, StarClick(star, value)) == if value == star then star else 0
  {
  }

  /** `hovered != null ? star <= hovered : star <= value`. */
  predicate Lit(star: int, hovered: Option<int>, value: int)
  {
    if hovered.Some? then star <= hovered.value else star <= value
  }

  /** The number of lit stars among 1..n. */
  function LitCount(n: nat, hovered: Option<int>, value: int): nat
  {
    if n == 0 then 0 else LitCount(n - 1, hovered, value) + (if Lit(n, hovered, value) then 1 else 0)
  }

  /** The lit stars are a prefix: star k is lit whenever a later star is. */
  lemma LitIsPrefix(j: int, k: int, hovered: Option<int>, value: int)
    requires j <= k && Lit(k, hovered, value)
    ensures Lit(j, hovered, value)
  {
  }

  /** The rating shown is the hovered star, else the stored value, clamped to 0..n. */
  lemma {:induction false} LitCountClamps(n: nat, hovered: Option<int>, value: int)
    ensures var t := if hovered.Some? then hovered.value else value;
      LitCount(n, hovered, value) == if t < 0 then 0 else if t > n then n else t
  {
    if n > 0 {
      LitCountClamps(n - 1, hovered, value);
    }
  }

  // ---------------------------------------------------------------------------
  // Priority
  // ---------------------------------------------------------------------------

  /** A stored salary as the JSON of the row sends it back: null or a number. */
  function Resent(salary: Option<int>): (a: Option<Amount>)
    ensures a.None? <==> salary.None?
    ensures a.Some? ==> a.value.Numeric? && a.value.amount == salary.value
  {
    if salary.None? then None else Some(Numeric(salary.value))
  }

  /** The job columns of `{ ...job, priority }` as `PUT /api/jobs/:id` reads
      them; the server has no priority column, so `priority` is not among them. */
  function ResentInput(job: Job): (input: JobInput)
    ensures input.company == Some(job.company) && input.position == Some(job.position)
    ensures input.remote <==> job.remote != 0
    ensures input.salaryMin == Resent(job.salaryMin) && input.salaryMax == Resent(job.salaryMax)
  {
    JobInput(Some(job.company), Some(job.position), job.location, job.remote != 0, job.url, job.status,
             job.appliedDate, job.deadline, Resent(job.salaryMin), Resent(job.salaryMax), job.notes)
  }

  /** A salary after a priority change: `0 || null` clears a stored 0, and
      any other value is kept. */
  function ZeroCleared(salary: Option<int>): (r: Option<int>)
    ensures r.None? <==> salary.None? || salary == Some(0)
    ensures r.Some? ==> r == salary
  {
    if salary == Some(0) then None else salary
  }

  /** A priority change sends every column back, so the stored row keeps its
      values and updated_at moves; the one change is that a salary stored as
      0 (typed as "0" in the form) is cleared to NULL. */
  lemma PriorityChangeKeepsRow(job: Job, now: string)
    requires WellFormedJob(job)
    ensures var row := RevisedJob(job, ResentInput(job), now);
      && row.salaryMin == ZeroCleared(job.salaryMin) && row.salaryMax == ZeroCleared(job.salaryMax)
      && row.(salaryMin := job.salaryMin, salaryMax := job.salaryMax) == job.(updatedAt := now)
  {
  }

  /** A minimum salary typed as "0" in the form is stored as 0, and the next
      priority change clears it. */
  lemma TypedZeroClearedByPriorityChange(id: int, input: JobInput, now: string, later: string)
    requires input.company.Some? && input.position.Some? && input.salaryMin == Some(Typed(0))
    ensures NewJob(id, input, now).salaryMin == Some(0)
    ensures var job := NewJob(id, input, now); RevisedJob(job, ResentInput(job), later).salaryMin.None?
  {
    var job := NewJob(id, input, now);
    PriorityChangeKeepsRow(job, later);
  }

  // ---------------------------------------------------------------------------
  // Activity timeline
  // ---------------------------------------------------------------------------

  /** ACTIVITY_ICONS. */
  const ActivityIcons: map<string, string> := map[
    "created" := "🆕", "status_change" := "🔄", "applied" := "📤", "interview" := "🎙️",
    "contact" := "👤", "note" := "📝", "default" := "📌"]

  /** `ACTIVITY_ICONS[a.type] || ACTIVITY_ICONS.default`. */
  function ActivityIcon(kind: Option<string>): (icon: string)
    ensures kind.Some? && kind.value in ActivityIcons ==> icon == ActivityIcons[kind.value]
    ensures kind.None? || kind.value !in ActivityIcons ==> icon == ActivityIcons["default"]
  {
    if kind.Some? && kind.value in ActivityIcons && ActivityIcons[kind.value] != "" then ActivityIcons[kind.value]
    else ActivityIcons["default"]
  }

  /** `created_at?.replace('T', ' ').slice(0, 16)`: the first 'T' becomes a
      space and the text is cut to 16 characters. */
  function Timestamp(createdAt: Option<string>): (r: Option<string>)
    ensures r.None? <==> createdAt.None?
    ensures r.Some? ==> |r.value| == if |createdAt.value| < 16 then |createdAt.value| else 16
    ensures r.Some? ==> forall k :: 0 <= k < |r.value| ==>
      r.value[k] == if k == FirstIndex(createdAt.value, 'T') then ' ' else createdAt.value[k]
  {
    if createdAt.None? then None else Some(Prefix(ReplaceFirst(createdAt.value, 'T', ' '), 16))
  }

  /** An ISO instant "YYYY-MM-DDTHH:MM:SS…" is shown as "YYYY-MM-DD HH:MM". */
  lemma TimestampOfIsoInstant(day: string, time: string)
    requires |day| == 10 && 'T' !in day && |time| >= 5
    ensures Timestamp(Some(day + "T" + time)) == Some(day + " " + time[..5])
  {
    var s := day + "T" + time;
    assert FirstIndex(s, 'T') == 10 by {
      assert s[10] == 'T';
      assert forall j :: 0 <= j < 10 ==> s[j] == day[j];
    }
    var r := Timestamp(Some(s)).value;
    var want := day + " " + time[..5];
    forall k | 0 <= k < 16 ensures r[k] == want[k] {
      if k < 10 {
        assert r[k] == s[k] == day[k];
      } else if k > 10 {
        assert r[k] == s[k] == time[k - 11];
      }
    }
    assert r == want;
  }

  /** A stored SQLite time "YYYY-MM-DD HH:MM:SS" has no 'T' and is only cut to the minute. */
  lemma TimestampWithoutT(s: string)
    requires 'T' !in s
    ensures Timestamp(Some(s)) == Some(Prefix(s, 16))
  {
    assert FirstIndex(s, 'T') == |s|;
    var r := ReplaceFirst(s, 'T', ' ');
    assert r == s;
  }

  // ---------------------------------------------------------------------------
  // Notes
  // ---------------------------------------------------------------------------

  /** The body `addNote` posts. */
  datatype NoteBody = NoteBody(kind: string, description: string)

  /** `if (!newNote.trim()) return;` else `{ type: 'note', description: newNote.trim() }`. */
  function NoteRequest(text: string): (r: Option<NoteBody>)
    ensures r.None? <==> AllSpace(text)
    ensures r.Some? ==> r.value.kind == "note" && r.value.description == Trim(text)
  {
    var trimmed := Trim(text);
    if trimmed == "" then None else Some(NoteBody("note", trimmed))
  }

  /** A note that is sent is non-empty, has no space at either end, and is a
      slice of what was typed with only white space cut around it. */
  lemma NoteRequestIsTrimmedSlice(text: string)
    requires NoteRequest(text).Some?
    ensures var d := NoteRequest(text).value.description;
      && d != "" && !IsSpace(d[0]) && !IsSpace(d[|d| - 1])
      && exists i :: 0 <= i <= |text| - |d| && d == text[i..i + |d|] && AllSpace(text[..i]) && AllSpace(text[i + |d|..])
  {
    var d := NoteRequest(text).value.description;
    assert d == Trim(text);
    var i := LeadingSpaces(text);
    assert 0 <= i <= |text| - |d| && d == text[i..i + |d|] && AllSpace(text[..i]) && AllSpace(text[i + |d|..]);
  }

  /** The note box: what was typed. */
  class NoteBox {
    var text: string

    constructor()
      ensures text == ""
    {
      text := "";
    }

    method Type(value: string)
      modifies this
      ensures text == value
    {
      text := value;
    }

    /** addNote: nothing is sent and the box is kept when the text is blank;
        otherwise the trimmed note is sent and the box is emptied. */
    method Submit() returns (sent: Option<NoteBody>)
      modifies this
      ensures sent == NoteRequest(old(text))
      ensures text == if sent.None? then old(text) else ""
    {
      sent := NoteRequest(text);
      if sent.Some? {
        text := "";
      }
    }
  }

  // ---------------------------------------------------------------------------
  // Salary and interview labels
  // ---------------------------------------------------------------------------

  /** `$min – $max` with a missing side shown as 0; None (no line) when neither is set. */
  function SalaryText(min: Option<int>, max: Option<int>): (r: Option<string>)
    ensures r.None? <==> !TruthyNumber(min) && !TruthyNumber(max)
  {
    if TruthyNumber(min) || TruthyNumber(max) then
      Some("$" + IntToString(OrZero(min)) + " – $" + IntToString(OrZero(max)))
    else None
  }

  /** Both amounts read back from the line: the minimum after the leading '$',
      the maximum at the end, each 0 when unset. */
  lemma SalaryTextReadsBack(min: Option<int>, max: Option<int>)
    requires TruthyNumber(min) || TruthyNumber(max)
    ensures var s, a, b := SalaryText(min, max).value, IntToString(OrZero(min)), IntToString(OrZero(max));
      && |s| >= |a| + |b| + 1
      && s[1..|a| + 1] == a && ParseInt(a) == OrZero(min)
      && s[|s| - |b|..] == b && ParseInt(b) == OrZero(max)
  {
    var a, b := IntToString(OrZero(min)), IntToString(OrZero(max));
    ParseIntToString(OrZero(min));
    ParseIntToString(OrZero(max));
    var s := SalaryText(min, max).value;
    assert s == "$" + a + (" – $" + b);
    assert s[1..|a| + 1] == a;
    assert s[|s| - |b|..] == b;
  }

  /** ROUND_TYPES, the options of the new-interview form. */
  const RoundTypes: seq<string> :=
    ["hr_screen", "phone_screen", "online_assessment", "technical", "system_design", "behavioral", "onsite", "other"]

  /** This page's ROUND_LABELS. */
  const RoundLabels: map<string, string> := map[
    "hr_screen" := "HR Screen", "phone_screen" := "Phone Screen", "online_assessment" := "Online Assessment",
    "technical" := "Technical Interview", "system_design" := "System Design", "behavioral" := "Behavioral",
    "onsite" := "Onsite", "other" := "Other"]

  /** `ROUND_LABELS[iv.round_type] ?? iv.round_type`. */
  function RoundLabel(roundType: string): (shown: string)
    ensures roundType in RoundLabels ==> shown == RoundLabels[roundType]
    ensures roundType !in RoundLabels ==> shown == roundType
  {
    if roundType in RoundLabels then RoundLabels[roundType] else roundType
  }

  /** Every type the form offers has a label. */
  lemma RoundTypesLabelled()
    ensures forall t :: t in RoundTypes <==> t in RoundLabels
  {
  }
}
