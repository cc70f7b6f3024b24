/** The server: the SQLite store of server/db.js and the REST handlers of
    server/index.js that read and write it. Each table is a sequence of rows
    in rowid order; the AUTOINCREMENT counters are the next ids to hand out.
    A statement that violates NOT NULL or a foreign key changes nothing and
    consumes no id. `now` is the value of datetime('now') at the call. */
module Store {
  import opened Wrappers
  import opened Strings
  import opened Seqs
  import opened Schema

  // ---------------------------------------------------------------------------
  // Tables keyed by an integer column
  // ---------------------------------------------------------------------------

  function JobKey(j: Job): int { j.id }
  function ContactKey(c: Contact): int { c.id }
  function RoundKey(r: Round): int { r.id }
  function PrepKey(q: PrepQuestion): int { q.id }
  function ContactJob(c: Contact): int { c.jobId }
  function RoundJob(r: Round): int { r.jobId }

  /** `key = id` and `key <> id` as row predicates. */
  function KeyIs<T>(key: T -> int, id: int): T -> bool
  {
    (x: T) => key(x) == id
  }

  function KeyIsNot<T>(key: T -> int, id: int): T -> bool
  {
    (x: T) => key(x) != id
  }

  function KeyLt<T>(key: T -> int): (T, T) -> bool
  {
    (a: T, b: T) => key(a) < key(b)
  }

  /** Rows are in ascending rowid order and every rowid is below the counter. */
  predicate Keyed<T>(rows: seq<T>, key: T -> int, next: int)
  {
    && SortedBy(rows, KeyLt(key))
    && forall i :: 0 <= i < |rows| ==> 0 < key(rows[i]) < next
  }

  predicate HasKey<T>(rows: seq<T>, key: T -> int, id: int)
  {
    exists i :: 0 <= i < |rows| && key(rows[i]) == id
  }

  /** Position of the first row whose key is id. */
  function IndexOfKey<T>(rows: seq<T>, key: T -> int, id: int): (k: Option<nat>)
    ensures k.Some? ==> k.value < |rows| && key(rows[k.value]) == id
    ensures k.Some? ==> forall i :: 0 <= i < k.value ==> key(rows[i]) != id
    ensures k.None? <==> !HasKey(rows, key, id)
  {
    if rows == [] then None
    else if key(rows[0]) == id then Some(0)
    else
      match IndexOfKey(rows[1..], key, id)
      case None =>
        assert forall i :: 1 <= i < |rows| ==> rows[i] == rows[1..][i - 1];
        None
      case Some(k) => Some(k + 1)
  }

  /** `SELECT * FROM t WHERE key = ?` returning one row (`.get`). */
  function FindKey<T>(rows: seq<T>, key: T -> int, id: int): (r: Option<T>)
    ensures r.None? <==> !HasKey(rows, key, id)
    ensures r.Some? ==> r.value in rows && key(r.value) == id
  {
    match IndexOfKey(rows, key, id)
    case None => None
    case Some(k) => Some(rows[k])
  }

  /** `SELECT * FROM t WHERE key = ?` returning every row (`.all`), in table order. */
  function WithKey<T(!new)>(rows: seq<T>, key: T -> int, id: int): (r: seq<T>)
    ensures forall x :: x in r <==> x in rows && key(x) == id
  {
    Filter(rows, KeyIs(key, id))
  }

  /** The rows that `DELETE FROM t WHERE key = ?` leaves. */
  function WithoutKey<T(!new)>(rows: seq<T>, key: T -> int, id: int): (r: seq<T>)
    ensures forall x :: x in r <==> x in rows && key(x) != id
  {
    Filter(rows, KeyIsNot(key, id))
  }

  /** With ascending keys, the row found by key is the only one with it. */
  lemma {:induction false} KeyedUnique<T>(rows: seq<T>, key: T -> int, next: int, i: int, j: int)
    requires Keyed(rows, key, next)
    requires 0 <= i < |rows| && 0 <= j < |rows|
    ensures key(rows[i]) == key(rows[j]) ==> i == j
  {
    assert i < j ==> KeyLt(key)(rows[i], rows[j]);
    assert j < i ==> KeyLt(key)(rows[j], rows[i]);
  }

  lemma {:induction false} FilterKeyed<T(!new)>(rows: seq<T>, p: T -> bool, key: T -> int, next: int)
    requires Keyed(rows, key, next)
    ensures Keyed(Filter(rows, p), key, next)
  {
    var r := Filter(rows, p);
    FilterSorted(rows, p, KeyLt(key));
    forall i | 0 <= i < |r| ensures 0 < key(r[i]) < next {
      assert r[i] in rows;
    }
  }

  lemma {:induction false} AppendKeyed<T>(rows: seq<T>, key: T -> int, next: int, x: T)
    requires Keyed(rows, key, next)
    requires key(x) == next && next > 0
    ensures Keyed(rows + [x], key, next + 1)
  {
    var r := rows + [x];
    forall i, j | 0 <= i < j < |r| ensures KeyLt(key)(r[i], r[j]) {
      if j == |rows| {
        assert r[i] == rows[i];
      } else {
        assert r[i] == rows[i] && r[j] == rows[j];
        assert KeyLt(key)(rows[i], rows[j]);
      }
    }
  }

  lemma {:induction false} ReplaceKeyed<T>(rows: seq<T>, key: T -> int, next: int, k: nat, x: T)
    requires Keyed(rows, key, next)
    requires k < |rows| && key(x) == key(rows[k])
    ensures Keyed(rows[k := x], key, next)
  {
    var r := rows[k := x];
    forall i, j | 0 <= i < j < |r| ensures KeyLt(key)(r[i], r[j]) {
      assert KeyLt(key)(rows[i], rows[j]);
    }
  }

  /** A key that survives a delete of another key is still there. */
  lemma {:induction false} WithoutKeyHasKey<T(!new)>(rows: seq<T>, key: T -> int, id: int, other: int)
    requires other != id && HasKey(rows, key, other)
    ensures HasKey(WithoutKey(rows, key, id), key, other)
  {
    var m :| 0 <= m < |rows| && key(rows[m]) == other;
    var r := WithoutKey(rows, key, id);
    assert rows[m] in r;
    var i :| 0 <= i < |r| && r[i] == rows[m];
  }

  lemma WithoutKeyGone<T(!new)>(rows: seq<T>, key: T -> int, id: int)
    ensures !HasKey(WithoutKey(rows, key, id), key, id)
  {
    var r := WithoutKey(rows, key, id);
    forall i | 0 <= i < |r| ensures key(r[i]) != id {
      assert r[i] in r;
    }
  }

  /** After `DELETE ... WHERE key = id`, selecting by that key finds nothing. */
  lemma DeletedKeyHasNoRows<T(!new)>(rows: seq<T>, key: T -> int, id: int)
    ensures WithKey(WithoutKey(rows, key, id), key, id) == []
  {
    var r := WithoutKey(rows, key, id);
    forall i | 0 <= i < |r| ensures !KeyIs(key, id)(r[i]) {
      assert r[i] in r;
    }
    FilterNone(r, KeyIs(key, id));
  }

  lemma {:induction false} ReplaceHasKey<T>(rows: seq<T>, key: T -> int, k: nat, x: T, id: int)
    requires k < |rows| && key(x) == key(rows[k])
    ensures HasKey(rows[k := x], key, id) == HasKey(rows, key, id)
  {
    if HasKey(rows, key, id) {
      var m :| 0 <= m < |rows| && key(rows[m]) == id;
      assert key(rows[k := x][m]) == id;
    }
    if HasKey(rows[k := x], key, id) {
      var m :| 0 <= m < |rows| && key(rows[k := x][m]) == id;
      assert key(rows[m]) == id;
    }
  }

  lemma {:induction false} AppendHasKey<T>(rows: seq<T>, x: T, key: T -> int, id: int)
    requires HasKey(rows, key, id)
    ensures HasKey(rows + [x], key, id)
  {
    var m :| 0 <= m < |rows| && key(rows[m]) == id;
    assert (rows + [x])[m] == rows[m];
  }

  /** After an append, the key lookup of an earlier key is unaffected. */
  lemma {:induction false} AppendWithKey<T(!new)>(rows: seq<T>, x: T, key: T -> int, id: int)
    ensures WithKey(rows + [x], key, id) == WithKey(rows, key, id) + (if key(x) == id then [x] else [])
  {
    FilterAppend(rows, [x], KeyIs(key, id));
    FilterSingleton(x, KeyIs(key, id));
  }

  // ---------------------------------------------------------------------------
  // Row builders: what INSERT and UPDATE store
  // ---------------------------------------------------------------------------

  /** What every handler guarantees about a stored job: remote is a flag. */
  predicate WellFormedJob(j: Job)
  {
    j.remote == 0 || j.remote == 1
  }

  /** The row `POST /api/jobs` inserts with the given rowid. */
  function NewJob(id: int, input: JobInput, now: string): (j: Job)
    requires input.company.Some? && input.position.Some?
    ensures j.id == id && j.company == input.company.value && j.position == input.position.value
    ensures j.location == input.location && j.url == input.url && j.appliedDate == input.appliedDate
    ensures j.deadline == input.deadline && j.notes == input.notes
    ensures j.remote == 1 <==> input.remote
    ensures Truthy(j.status)
    ensures Truthy(input.status) ==> j.status == input.status
    ensures !Truthy(input.status) ==> j.status == Some("applied")
    ensures j.salaryMin == SalaryOrNull(input.salaryMin) && j.salaryMax == SalaryOrNull(input.salaryMax)
    ensures WellFormedJob(j)
    ensures j.createdAt == now && j.updatedAt == now
  {
    Job(id, input.company.value, input.position.value, input.location, Flag(input.remote), input.url,
        if Truthy(input.status) then input.status else Some("applied"),
        input.appliedDate, input.deadline, SalaryOrNull(input.salaryMin), SalaryOrNull(input.salaryMax),
        input.notes, now, now)
  }

  /** The row `PUT /api/jobs/:id` leaves: every editable column is overwritten
      (status without a default), the id and created_at are kept. */
  function RevisedJob(row: Job, input: JobInput, now: string): (j: Job)
    requires input.company.Some? && input.position.Some?
    ensures j.id == row.id && j.createdAt == row.createdAt && j.updatedAt == now
    ensures j.company == input.company.value && j.position == input.position.value
    ensures j.location == input.location && j.url == input.url && j.appliedDate == input.appliedDate
    ensures j.deadline == input.deadline && j.notes == input.notes
    ensures j.status == input.status
    ensures j.remote == 1 <==> input.remote
    ensures j.salaryMin == SalaryOrNull(input.salaryMin) && j.salaryMax == SalaryOrNull(input.salaryMax)
    ensures WellFormedJob(j)
  {
    row.(company := input.company.value, position := input.position.value, location := input.location,
         remote := Flag(input.remote), url := input.url, status := input.status,
         appliedDate := input.appliedDate, deadline := input.deadline,
         salaryMin := SalaryOrNull(input.salaryMin), salaryMax := SalaryOrNull(input.salaryMax),
         notes := input.notes, updatedAt := now)
  }

  /** A second PUT with the same body and clock changes nothing. */
  lemma RevisedJobIdempotent(row: Job, input: JobInput, now: string)
    requires input.company.Some? && input.position.Some?
    ensures RevisedJob(RevisedJob(row, input, now), input, now) == RevisedJob(row, input, now)
  {
  }

  function NewContact(id: int, jobId: int, input: ContactInput): (c: Contact)
    requires input.name.Some?
    ensures c.id == id && c.jobId == jobId && c.name == input.name.value
    ensures c.email == input.email && c.phone == input.phone && c.role == input.role && c.notes == input.notes
  {
    Contact(id, jobId, input.name.value, input.email, input.phone, input.role, input.notes)
  }

  /** `PUT /api/contacts/:id`: the contact stays attached to its job. */
  function RevisedContact(row: Contact, input: ContactInput): (c: Contact)
    requires input.name.Some?
    ensures c.id == row.id && c.jobId == row.jobId && c.name == input.name.value
    ensures c.email == input.email && c.phone == input.phone && c.role == input.role && c.notes == input.notes
  {
    row.(name := input.name.value, email := input.email, phone := input.phone, role := input.role, notes := input.notes)
  }

  function NewRound(id: int, jobId: int, input: RoundInput, now: string): (r: Round)
    requires input.roundType.Some?
    ensures r.id == id && r.jobId == jobId && r.roundType == input.roundType.value
    ensures r.scheduledDate == input.scheduledDate && r.interviewer == input.interviewer && r.notes == input.notes
    ensures r.questionsAsked == input.questionsAsked && r.outcome == input.outcome && r.createdAt == now
  {
    Round(id, jobId, input.roundType.value, input.scheduledDate, input.interviewer, input.notes,
          input.questionsAsked, input.outcome, now)
  }

  /** `PUT /api/interviews/:id`: job and creation time are kept. */
  function RevisedRound(row: Round, input: RoundInput): (r: Round)
    requires input.roundType.Some?
    ensures r.id == row.id && r.jobId == row.jobId && r.createdAt == row.createdAt
    ensures r.roundType == input.roundType.value
    ensures r.scheduledDate == input.scheduledDate && r.interviewer == input.interviewer && r.notes == input.notes
    ensures r.questionsAsked == input.questionsAsked && r.outcome == input.outcome
  {
    row.(roundType := input.roundType.value, scheduledDate := input.scheduledDate, interviewer := input.interviewer,
         notes := input.notes, questionsAsked := input.questionsAsked, outcome := input.outcome)
  }

  /** `POST /api/prep`: difficulty defaults to 'medium' when falsy; the
      practiced flag in the body is ignored and the column default 0 applies. */
  function NewPrep(id: int, input: PrepInput, now: string): (q: PrepQuestion)
    requires input.category.Some? && input.question.Some?
    ensures q.id == id && q.category == input.category.value && q.question == input.question.value
    ensures q.answer == input.answer && q.tags == input.tags
    ensures Truthy(q.difficulty)
    ensures Truthy(input.difficulty) ==> q.difficulty == input.difficulty
    ensures !Truthy(input.difficulty) ==> q.difficulty == Some("medium")
    ensures q.practiced == 0 && q.createdAt == now
  {
    PrepQuestion(id, input.category.value, input.question.value, input.answer, input.tags,
                 if Truthy(input.difficulty) then input.difficulty else Some("medium"), 0, now)
  }

  /** `PUT /api/prep/:id`: difficulty is stored as sent (no default) and
      practiced becomes 1 or 0. */
  function RevisedPrep(row: PrepQuestion, input: PrepInput): (q: PrepQuestion)
    requires input.category.Some? && input.question.Some?
    ensures q.id == row.id && q.createdAt == row.createdAt
    ensures q.category == input.category.value && q.question == input.question.value
    ensures q.answer == input.answer && q.tags == input.tags && q.difficulty == input.difficulty
    ensures q.practiced == 1 <==> input.practiced
    ensures q.practiced == 0 || q.practiced == 1
  {
    row.(category := input.category.value, question := input.question.value, answer := input.answer,
         tags := input.tags, difficulty := input.difficulty, practiced := Flag(input.practiced))
  }

  // ---------------------------------------------------------------------------
  // Queries
  // ---------------------------------------------------------------------------

  /** The WHERE clause of `GET /api/jobs`: a falsy parameter adds no condition. */
  predicate JobMatches(j: Job, status: Option<string>, search: Option<string>)
  {
    && (Truthy(status) ==> j.status == status)
    && (Truthy(search) ==> Like(Some(j.company), search.value) || Like(Some(j.position), search.value))
  }

  function MatchingJobs(jobs: seq<Job>, status: Option<string>, search: Option<string>): (r: seq<Job>)
    ensures forall j :: j in r <==> j in jobs && JobMatches(j, status, search)
  {
    Filter(jobs, (j: Job) => JobMatches(j, status, search))
  }

  /** `GET /api/jobs?status=&search=`: the matching rows, newest first. */
  function ListJobs(jobs: seq<Job>, status: Option<string>, search: Option<string>): (r: seq<Job>)
    ensures forall j :: j in r <==> j in jobs && JobMatches(j, status, search)
    ensures forall j :: multiset(r)[j] == if JobMatches(j, status, search) then multiset(jobs)[j] else 0
    ensures SortedBy(r, NewerFirst)
  {
    var matching := MatchingJobs(jobs, status, search);
    NewerFirstTotalPreorder();
    SortBySorted(matching, NewerFirst);
    var r := SortBy(matching, NewerFirst);
    assert forall j :: multiset(r)[j] == multiset(matching)[j];
    assert forall j :: multiset(matching)[j] == if JobMatches(j, status, search) then multiset(jobs)[j] else 0 by {
      forall j { FilterMultiplicity(jobs, (j: Job) => JobMatches(j, status, search), j); }
    }
    r
  }

  /** Without a truthy filter the list holds every job exactly once per row. */
  lemma ListJobsUnfiltered(jobs: seq<Job>, status: Option<string>, search: Option<string>)
    requires !Truthy(status) && !Truthy(search)
    ensures multiset(ListJobs(jobs, status, search)) == multiset(jobs)
  {
    var r := ListJobs(jobs, status, search);
    assert forall j :: multiset(r)[j] == multiset(jobs)[j];
  }

  /** The search is case-insensitive: lower-casing it returns the same list. */
  lemma {:induction false} ListJobsIgnoresSearchCase(jobs: seq<Job>, status: Option<string>, search: string)
    ensures ListJobs(jobs, status, Some(Lower(search))) == ListJobs(jobs, status, Some(search))
  {
    forall j: Job ensures JobMatches(j, status, Some(Lower(search))) == JobMatches(j, status, Some(search)) {
      LikeIgnoresPatternCase(Some(j.company), search);
      LikeIgnoresPatternCase(Some(j.position), search);
    }
    FilterExt(jobs, (j: Job) => JobMatches(j, status, Some(Lower(search))), (j: Job) => JobMatches(j, status, Some(search)));
  }

  /** The body of `GET /api/jobs/:id`: the job's columns, its contacts and its rounds. */
  datatype JobDetail = JobDetail(job: Job, contacts: seq<Contact>, interviews: seq<Round>)

  /** `GET /api/jobs/:id`: None is the 404. Contacts come in table order,
      rounds by scheduled date with undated rounds first. */
  function GetJob(jobs: seq<Job>, contacts: seq<Contact>, rounds: seq<Round>, id: int): (r: Option<JobDetail>)
    ensures r.None? <==> !HasKey(jobs, JobKey, id)
    ensures r.Some? ==> r.value.job in jobs && r.value.job.id == id
    ensures r.Some? ==> r.value.contacts == WithKey(contacts, ContactJob, id)
    ensures r.Some? ==> forall c :: c in r.value.contacts <==> c in contacts && c.jobId == id
    ensures r.Some? ==> forall x :: x in r.value.interviews <==> x in rounds && x.jobId == id
    ensures r.Some? ==> multiset(r.value.interviews) == multiset(WithKey(rounds, RoundJob, id))
    ensures r.Some? ==> SortedBy(r.value.interviews, EarlierRound)
  {
    match FindKey(jobs, JobKey, id)
    case None => None
    case Some(job) =>
      var own := WithKey(rounds, RoundJob, id);
      EarlierRoundTotalPreorder();
      SortBySorted(own, EarlierRound);
      var sorted := SortBy(own, EarlierRound);
      assert forall x :: x in sorted <==> x in own by {
        forall x ensures x in sorted <==> x in own {
          assert x in sorted <==> x in multiset(sorted);
        }
      }
      Some(JobDetail(job, WithKey(contacts, ContactJob, id), sorted))
  }

  /** The WHERE clause of `GET /api/prep`: category 'all' means no category filter. */
  predicate PrepMatches(q: PrepQuestion, category: Option<string>, search: Option<string>)
  {
    && (Truthy(category) && category.value != "all" ==> q.category == category.value)
    && (Truthy(search) ==> Like(Some(q.question), search.value) || Like(q.answer, search.value) || Like(q.tags, search.value))
  }

  function MatchingPrep(prep: seq<PrepQuestion>, category: Option<string>, search: Option<string>): (r: seq<PrepQuestion>)
    ensures forall q :: q in r <==> q in prep && PrepMatches(q, category, search)
  {
    Filter(prep, (q: PrepQuestion) => PrepMatches(q, category, search))
  }

  /** `GET /api/prep?category=&search=`: matching questions by category, newest first within one. */
  function ListPrep(prep: seq<PrepQuestion>, category: Option<string>, search: Option<string>): (r: seq<PrepQuestion>)
    ensures forall q :: q in r <==> q in prep && PrepMatches(q, category, search)
    ensures forall q :: multiset(r)[q] == if PrepMatches(q, category, search) then multiset(prep)[q] else 0
    ensures SortedBy(r, PrepOrder)
  {
    var matching := MatchingPrep(prep, category, search);
    PrepOrderTotalPreorder();
    SortBySorted(matching, PrepOrder);
    var r := SortBy(matching, PrepOrder);
    assert forall q :: multiset(r)[q] == multiset(matching)[q];
    assert forall q :: multiset(matching)[q] == if PrepMatches(q, category, search) then multiset(prep)[q] else 0 by {
      forall q { FilterMultiplicity(prep, (q: PrepQuestion) => PrepMatches(q, category, search), q); }
    }
    r
  }

  /** Asking for category 'all' is the same as asking for no category. */
  lemma {:induction false} ListPrepAllIsUnfiltered(prep: seq<PrepQuestion>, search: Option<string>)
    ensures ListPrep(prep, Some("all"), search) == ListPrep(prep, None, search)
  {
    FilterExt(prep, (q: PrepQuestion) => PrepMatches(q, Some("all"), search), (q: PrepQuestion) => PrepMatches(q, None, search));
  }

  // ---------------------------------------------------------------------------
  // The store
  // ---------------------------------------------------------------------------

  /** The row's foreign key names an existing job. */
  function RefersTo<T>(fk: T -> int, jobs: seq<Job>): T -> bool
  {
    (x: T) => HasKey(jobs, JobKey, fk(x))
  }

  predicate PracticedFlag(q: PrepQuestion)
  {
    q.practiced == 0 || q.practiced == 1
  }

  /** References stay valid when every job id that existed still exists. */
  lemma {:induction false} RefersToMoreJobs<T>(rows: seq<T>, fk: T -> int, jobs: seq<Job>, jobs': seq<Job>)
    requires All(rows, RefersTo(fk, jobs))
    requires forall id :: HasKey(jobs, JobKey, id) ==> HasKey(jobs', JobKey, id)
    ensures All(rows, RefersTo(fk, jobs'))
  {
    forall i | 0 <= i < |rows| ensures RefersTo(fk, jobs')(rows[i]) {
      assert RefersTo(fk, jobs)(rows[i]);
    }
  }

  /** ON DELETE CASCADE: dropping the job and every row that referenced it
      leaves only valid references. */
  lemma {:induction false} CascadeRefersTo<T(!new)>(rows: seq<T>, fk: T -> int, jobs: seq<Job>, id: int)
    requires All(rows, RefersTo(fk, jobs))
    ensures All(WithoutKey(rows, fk, id), RefersTo(fk, WithoutKey(jobs, JobKey, id)))
  {
    var rest := WithoutKey(rows, fk, id);
    forall i | 0 <= i < |rest| ensures RefersTo(fk, WithoutKey(jobs, JobKey, id))(rest[i]) {
      assert rest[i] in rows;
      var m :| 0 <= m < |rows| && rows[m] == rest[i];
      assert RefersTo(fk, jobs)(rows[m]);
      WithoutKeyHasKey(jobs, JobKey, id, fk(rest[i]));
    }
  }

  /** A row with the same foreign key keeps the reference valid. */
  lemma RefersToReplace<T>(rows: seq<T>, fk: T -> int, jobs: seq<Job>, k: nat, x: T)
    requires All(rows, RefersTo(fk, jobs)) && k < |rows| && fk(x) == fk(rows[k])
    ensures All(rows[k := x], RefersTo(fk, jobs))
  {
    assert RefersTo(fk, jobs)(rows[k]);
    AllReplace(rows, k, x, RefersTo(fk, jobs));
  }

  /** The contents of the database file: the four tables in rowid order and
      the next id each AUTOINCREMENT counter hands out. */
  datatype Tables = Tables(
    jobs: seq<Job>,
    contacts: seq<Contact>,
    rounds: seq<Round>,
    prep: seq<PrepQuestion>,
    nextJobId: int,
    nextContactId: int,
    nextRoundId: int,
    nextPrepId: int)

  /** A freshly created database file. */
  const EmptyTables := Tables([], [], [], [], 1, 1, 1, 1)

  /** Rowid order and counters, the two foreign keys, and what every
      handler writes into remote, the salaries and practiced. */
  ghost predicate ValidTables(t: Tables)
  {
    && t.nextJobId > 0 && t.nextContactId > 0 && t.nextRoundId > 0 && t.nextPrepId > 0
    && Keyed(t.jobs, JobKey, t.nextJobId)
    && Keyed(t.contacts, ContactKey, t.nextContactId)
    && Keyed(t.rounds, RoundKey, t.nextRoundId)
    && Keyed(t.prep, PrepKey, t.nextPrepId)
    && All(t.contacts, RefersTo(ContactJob, t.jobs))
    && All(t.rounds, RefersTo(RoundJob, t.jobs))
    && All(t.jobs, WellFormedJob)
    && All(t.prep, PracticedFlag)
  }

  lemma EmptyValid()
    ensures ValidTables(EmptyTables)
  {
  }

  /** An insert into jobs at the counter keeps every table valid. */
  lemma AppendJobValid(t: Tables, row: Job)
    requires ValidTables(t)
    requires row.id == t.nextJobId && WellFormedJob(row)
    ensures ValidTables(t.(jobs := t.jobs + [row], nextJobId := t.nextJobId + 1))
  {
    AppendKeyed(t.jobs, JobKey, t.nextJobId, row);
    AllAppend(t.jobs, row, WellFormedJob);
    forall k | HasKey(t.jobs, JobKey, k) ensures HasKey(t.jobs + [row], JobKey, k) {
      AppendHasKey(t.jobs, row, JobKey, k);
    }
    RefersToMoreJobs(t.contacts, ContactJob, t.jobs, t.jobs + [row]);
    RefersToMoreJobs(t.rounds, RoundJob, t.jobs, t.jobs + [row]);
  }

  /** Rewriting a job row in place under the same id keeps every table valid. */
  lemma ReplaceJobValid(t: Tables, k: nat, row: Job)
    requires ValidTables(t)
    requires k < |t.jobs| && row.id == t.jobs[k].id && WellFormedJob(row)
    ensures ValidTables(t.(jobs := t.jobs[k := row]))
  {
    ReplaceKeyed(t.jobs, JobKey, t.nextJobId, k, row);
    AllReplace(t.jobs, k, row, WellFormedJob);
    forall x | HasKey(t.jobs, JobKey, x) ensures HasKey(t.jobs[k := row], JobKey, x) {
      ReplaceHasKey(t.jobs, JobKey, k, row, x);
    }
    RefersToMoreJobs(t.contacts, ContactJob, t.jobs, t.jobs[k := row]);
    RefersToMoreJobs(t.rounds, RoundJob, t.jobs, t.jobs[k := row]);
  }

  /** ON DELETE CASCADE keeps every table valid. */
  lemma CascadeValid(t: Tables, id: int)
    requires ValidTables(t)
    ensures ValidTables(t.(jobs := WithoutKey(t.jobs, JobKey, id),
                           contacts := WithoutKey(t.contacts, ContactJob, id),
                           rounds := WithoutKey(t.rounds, RoundJob, id)))
  {
    FilterKeyed(t.jobs, KeyIsNot(JobKey, id), JobKey, t.nextJobId);
    FilterKeyed(t.contacts, KeyIsNot(ContactJob, id), ContactKey, t.nextContactId);
    FilterKeyed(t.rounds, KeyIsNot(RoundJob, id), RoundKey, t.nextRoundId);
    AllFilter(t.jobs, KeyIsNot(JobKey, id), WellFormedJob);
    CascadeRefersTo(t.contacts, ContactJob, t.jobs, id);
    CascadeRefersTo(t.rounds, RoundJob, t.jobs, id);
  }

  /** An insert into contacts that passed the foreign key check keeps every table valid. */
  lemma AppendContactValid(t: Tables, row: Contact)
    requires ValidTables(t)
    requires row.id == t.nextContactId && HasKey(t.jobs, JobKey, row.jobId)
    ensures ValidTables(t.(contacts := t.contacts + [row], nextContactId := t.nextContactId + 1))
  {
    AppendKeyed(t.contacts, ContactKey, t.nextContactId, row);
    assert ContactJob(row) == row.jobId;
    assert RefersTo(ContactJob, t.jobs)(row);
    AllAppend(t.contacts, row, RefersTo(ContactJob, t.jobs));
  }

  /** Rewriting a contact under the same id and job keeps every table valid. */
  lemma ReplaceContactValid(t: Tables, k: nat, row: Contact)
    requires ValidTables(t)
    requires k < |t.contacts| && row.id == t.contacts[k].id && row.jobId == t.contacts[k].jobId
    ensures ValidTables(t.(contacts := t.contacts[k := row]))
  {
    ReplaceKeyed(t.contacts, ContactKey, t.nextContactId, k, row);
    RefersToReplace(t.contacts, ContactJob, t.jobs, k, row);
  }

  /** Deleting contacts keeps every table valid. */
  lemma DeleteContactValid(t: Tables, id: int)
    requires ValidTables(t)
    ensures ValidTables(t.(contacts := WithoutKey(t.contacts, ContactKey, id)))
  {
    FilterKeyed(t.contacts, KeyIsNot(ContactKey, id), ContactKey, t.nextContactId);
    AllFilter(t.contacts, KeyIsNot(ContactKey, id), RefersTo(ContactJob, t.jobs));
  }

  /** An insert into interview_rounds that passed the foreign key check keeps every table valid. */
  lemma AppendRoundValid(t: Tables, row: Round)
    requires ValidTables(t)
    requires row.id == t.nextRoundId && HasKey(t.jobs, JobKey, row.jobId)
    ensures ValidTables(t.(rounds := t.rounds + [row], nextRoundId := t.nextRoundId + 1))
  {
    AppendKeyed(t.rounds, RoundKey, t.nextRoundId, row);
    assert RoundJob(row) == row.jobId;
    assert RefersTo(RoundJob, t.jobs)(row);
    AllAppend(t.rounds, row, RefersTo(RoundJob, t.jobs));
  }

  /** Rewriting a round under the same id and job keeps every table valid. */
  lemma ReplaceRoundValid(t: Tables, k: nat, row: Round)
    requires ValidTables(t)
    requires k < |t.rounds| && row.id == t.rounds[k].id && row.jobId == t.rounds[k].jobId
    ensures ValidTables(t.(rounds := t.rounds[k := row]))
  {
    ReplaceKeyed(t.rounds, RoundKey, t.nextRoundId, k, row);
    RefersToReplace(t.rounds, RoundJob, t.jobs, k, row);
  }

  /** Deleting rounds keeps every table valid. */
  lemma DeleteRoundValid(t: Tables, id: int)
    requires ValidTables(t)
    ensures ValidTables(t.(rounds := WithoutKey(t.rounds, RoundKey, id)))
  {
    FilterKeyed(t.rounds, KeyIsNot(RoundKey, id), RoundKey, t.nextRoundId);
    AllFilter(t.rounds, KeyIsNot(RoundKey, id), RefersTo(RoundJob, t.jobs));
  }

  /** An insert into prep_questions at the counter keeps every table valid. */
  lemma AppendPrepValid(t: Tables, row: PrepQuestion)
    requires ValidTables(t)
    requires row.id == t.nextPrepId && PracticedFlag(row)
    ensures ValidTables(t.(prep := t.prep + [row], nextPrepId := t.nextPrepId + 1))
  {
    AppendKeyed(t.prep, PrepKey, t.nextPrepId, row);
    AllAppend(t.prep, row, PracticedFlag);
  }

  /** Rewriting a prep question under the same id keeps every table valid. */
  lemma ReplacePrepValid(t: Tables, k: nat, row: PrepQuestion)
    requires ValidTables(t)
    requires k < |t.prep| && row.id == t.prep[k].id && PracticedFlag(row)
    ensures ValidTables(t.(prep := t.prep[k := row]))
  {
    ReplaceKeyed(t.prep, PrepKey, t.nextPrepId, k, row);
    AllReplace(t.prep, k, row, PracticedFlag);
  }

  /** Deleting prep questions keeps every table valid. */
  lemma DeletePrepValid(t: Tables, id: int)
    requires ValidTables(t)
    ensures ValidTables(t.(prep := WithoutKey(t.prep, PrepKey, id)))
  {
    FilterKeyed(t.prep, KeyIsNot(PrepKey, id), PrepKey, t.nextPrepId);
    AllFilter(t.prep, KeyIsNot(PrepKey, id), PracticedFlag);
  }

  /** No contact or round can point at the next job id. */
  lemma NoReferenceToCounter(t: Tables)
    requires ValidTables(t)
    ensures WithKey(t.contacts, ContactJob, t.nextJobId) == []
    ensures WithKey(t.rounds, RoundJob, t.nextJobId) == []
  {
    NoRowAtCounter(t.jobs, JobKey, t.nextJobId);
    forall i | 0 <= i < |t.contacts| ensures !KeyIs(ContactJob, t.nextJobId)(t.contacts[i]) {
      assert RefersTo(ContactJob, t.jobs)(t.contacts[i]);
    }
    forall i | 0 <= i < |t.rounds| ensures !KeyIs(RoundJob, t.nextJobId)(t.rounds[i]) {
      assert RefersTo(RoundJob, t.jobs)(t.rounds[i]);
    }
    FilterNone(t.contacts, KeyIs(ContactJob, t.nextJobId));
    FilterNone(t.rounds, KeyIs(RoundJob, t.nextJobId));
  }

  /** `POST /api/jobs` followed by `GET /api/jobs/:id` on the new id returns
      the inserted row with no contacts and no interviews. */
  lemma CreatedJobDetail(t: Tables, row: Job)
    requires ValidTables(t)
    requires row.id == t.nextJobId
    ensures GetJob(t.jobs + [row], t.contacts, t.rounds, row.id) == Some(JobDetail(row, [], []))
  {
    NoRowAtCounter(t.jobs, JobKey, t.nextJobId);
    FindAppended(t.jobs, row, JobKey);
    NoReferenceToCounter(t);
  }

  /** After `DELETE /api/jobs/:id` the job is a 404 and nothing refers to it. */
  lemma DeletedJobGone(jobs: seq<Job>, contacts: seq<Contact>, rounds: seq<Round>, id: int)
    ensures GetJob(WithoutKey(jobs, JobKey, id), WithoutKey(contacts, ContactJob, id), WithoutKey(rounds, RoundJob, id), id).None?
    ensures WithKey(WithoutKey(contacts, ContactJob, id), ContactJob, id) == []
    ensures WithKey(WithoutKey(rounds, RoundJob, id), RoundJob, id) == []
  {
    WithoutKeyGone(jobs, JobKey, id);
    DeletedKeyHasNoRows(contacts, ContactJob, id);
    DeletedKeyHasNoRows(rounds, RoundJob, id);
  }

  /** The open database connection; every handler runs its statement on it. */
  class Database {
    var tables: Tables

    ghost predicate Valid()
      reads this
    {
      ValidTables(tables)
    }

    /** A fresh database file: CREATE TABLE IF NOT EXISTS on an empty file. */
    constructor ()
      ensures Valid()
      ensures tables == EmptyTables
    {
      tables := EmptyTables;
      EmptyValid();
    }

    /** Whether a job row with this id exists (the foreign key check). */
    function HasJob(id: int): (b: bool)
      reads this
      ensures b <==> HasKey(tables.jobs, JobKey, id)
    {
      IndexOfKey(tables.jobs, JobKey, id).Some?
    }

    /** `POST /api/jobs`. */
    method CreateJob(input: JobInput, now: string) returns (r: Result<Job>)
      requires Valid()
      modifies this
      ensures Valid()
      ensures input.company.None? ==> r == Err(NotNull("company"))
      ensures input.company.Some? && input.position.None? ==> r == Err(NotNull("position"))
      ensures r.Ok? <==> input.company.Some? && input.position.Some?
      ensures r.Err? ==> tables == old(tables)
      ensures r.Ok? ==> r.value == NewJob(old(tables.nextJobId), input, now)
      ensures r.Ok? ==> tables == old(tables).(jobs := old(tables.jobs) + [r.value], nextJobId := old(tables.nextJobId) + 1)
    {
      if input.company.None? {
        r := Err(NotNull("company"));
      } else if input.position.None? {
        r := Err(NotNull("position"));
      } else {
        var row := NewJob(tables.nextJobId, input, now);
        AppendJobValid(tables, row);
        tables := tables.(jobs := tables.jobs + [row], nextJobId := tables.nextJobId + 1);
        r := Ok(row);
      }
    }

    /** `PUT /api/jobs/:id`. Ok(None) is the empty response for an unknown
        id; NOT NULL is only checked against a row that exists. */
    method UpdateJob(id: int, input: JobInput, now: string) returns (r: Result<Option<Job>>)
      requires Valid()
      modifies this
      ensures Valid()
      ensures !HasKey(old(tables.jobs), JobKey, id) ==> r == Ok(None)
      ensures HasKey(old(tables.jobs), JobKey, id) && input.company.None? ==> r == Err(NotNull("company"))
      ensures HasKey(old(tables.jobs), JobKey, id) && input.company.Some? && input.position.None? ==> r == Err(NotNull("position"))
      ensures r.Err? || r == Ok(None) ==> tables == old(tables)
      ensures r.Ok? && r.value.Some? ==>
        && HasKey(old(tables.jobs), JobKey, id)
        && var k := IndexOfKey(old(tables.jobs), JobKey, id).value;
           && r.value.value == RevisedJob(old(tables.jobs)[k], input, now)
           && tables == old(tables).(jobs := old(tables.jobs)[k := r.value.value])
      ensures r.Ok? && r.value.Some? ==> FindKey(tables.jobs, JobKey, id) == r.value
    {
      var k := IndexOfKey(tables.jobs, JobKey, id);
      if k.None? {
        r := Ok(None);
      } else if input.company.None? {
        r := Err(NotNull("company"));
      } else if input.position.None? {
        r := Err(NotNull("position"));
      } else {
        var row := RevisedJob(tables.jobs[k.value], input, now);
        ReplaceJobValid(tables, k.value, row);
        FindReplaced(tables.jobs, JobKey, tables.nextJobId, k.value, row);
        tables := tables.(jobs := tables.jobs[k.value := row]);
        r := Ok(Some(row));
      }
    }

    /** `DELETE /api/jobs/:id`: the job goes and ON DELETE CASCADE removes its
        contacts and rounds. Deleting an unknown id succeeds and changes nothing. */
    method DeleteJob(id: int)
      requires Valid()
      modifies this
      ensures Valid()
      ensures tables == old(tables).(jobs := WithoutKey(old(tables.jobs), JobKey, id),
                                     contacts := WithoutKey(old(tables.contacts), ContactJob, id),
                                     rounds := WithoutKey(old(tables.rounds), RoundJob, id))
    {
      CascadeValid(tables, id);
      tables := tables.(jobs := WithoutKey(tables.jobs, JobKey, id),
                        contacts := WithoutKey(tables.contacts, ContactJob, id),
                        rounds := WithoutKey(tables.rounds, RoundJob, id));
    }

    /** `POST /api/jobs/:id/contacts`. */
    method CreateContact(jobId: int, input: ContactInput) returns (r: Result<Contact>)
      requires Valid()
      modifies this
      ensures Valid()
      ensures input.name.None? ==> r == Err(NotNull("name"))
      ensures input.name.Some? && !HasKey(old(tables.jobs), JobKey, jobId) ==> r == Err(ForeignKey)
      ensures r.Err? ==> tables == old(tables)
      ensures r.Ok? ==> r.value == NewContact(old(tables.nextContactId), jobId, input)
      ensures r.Ok? ==> tables == old(tables).(contacts := old(tables.contacts) + [r.value], nextContactId := old(tables.nextContactId) + 1)
    {
      if input.name.None? {
        r := Err(NotNull("name"));
      } else if !HasJob(jobId) {
        r := Err(ForeignKey);
      } else {
        var row := NewContact(tables.nextContactId, jobId, input);
        AppendContactValid(tables, row);
        tables := tables.(contacts := tables.contacts + [row], nextContactId := tables.nextContactId + 1);
        r := Ok(row);
      }
    }

    /** `PUT /api/contacts/:id`. */
    method UpdateContact(id: int, input: ContactInput) returns (r: Result<Option<Contact>>)
      requires Valid()
      modifies this
      ensures Valid()
      ensures !HasKey(old(tables.contacts), ContactKey, id) ==> r == Ok(None)
      ensures HasKey(old(tables.contacts), ContactKey, id) && input.name.None? ==> r == Err(NotNull("name"))
      ensures r.Err? || r == Ok(None) ==> tables == old(tables)
      ensures r.Ok? && r.value.Some? ==>
        && HasKey(old(tables.contacts), ContactKey, id)
        && var k := IndexOfKey(old(tables.contacts), ContactKey, id).value;
           && r.value.value == RevisedContact(old(tables.contacts)[k], input)
           && tables == old(tables).(contacts := old(tables.contacts)[k := r.value.value])
      ensures r.Ok? && r.value.Some? ==> FindKey(tables.contacts, ContactKey, id) == r.value
    {
      var k := IndexOfKey(tables.contacts, ContactKey, id);
      if k.None? {
        r := Ok(None);
      } else if input.name.None? {
        r := Err(NotNull("name"));
      } else {
        var row := RevisedContact(tables.contacts[k.value], input);
        ReplaceContactValid(tables, k.value, row);
        FindReplaced(tables.contacts, ContactKey, tables.nextContactId, k.value, row);
        tables := tables.(contacts := tables.contacts[k.value := row]);
        r := Ok(Some(row));
      }
    }

    /** `DELETE /api/contacts/:id`. */
    method DeleteContact(id: int)
      requires Valid()
      modifies this
      ensures Valid()
      ensures tables == old(tables).(contacts := WithoutKey(old(tables.contacts), ContactKey, id))
    {
      DeleteContactValid(tables, id);
      tables := tables.(contacts := WithoutKey(tables.contacts, ContactKey, id));
    }

    /** `POST /api/jobs/:id/interviews`. */
    method CreateRound(jobId: int, input: RoundInput, now: string) returns (r: Result<Round>)
      requires Valid()
      modifies this
      ensures Valid()
      ensures input.roundType.None? ==> r == Err(NotNull("round_type"))
      ensures input.roundType.Some? && !HasKey(old(tables.jobs), JobKey, jobId) ==> r == Err(ForeignKey)
      ensures r.Err? ==> tables == old(tables)
      ensures r.Ok? ==> r.value == NewRound(old(tables.nextRoundId), jobId, input, now)
      ensures r.Ok? ==> tables == old(tables).(rounds := old(tables.rounds) + [r.value], nextRoundId := old(tables.nextRoundId) + 1)
    {
      if input.roundType.None? {
        r := Err(NotNull("round_type"));
      } else if !HasJob(jobId) {
        r := Err(ForeignKey);
      } else {
        var row := NewRound(tables.nextRoundId, jobId, input, now);
        AppendRoundValid(tables, row);
        tables := tables.(rounds := tables.rounds + [row], nextRoundId := tables.nextRoundId + 1);
        r := Ok(row);
      }
    }

    /** `PUT /api/interviews/:id`. */
    method UpdateRound(id: int, input: RoundInput) returns (r: Result<Option<Round>>)
      requires Valid()
      modifies this
      ensures Valid()
      ensures !HasKey(old(tables.rounds), RoundKey, id) ==> r == Ok(None)
      ensures HasKey(old(tables.rounds), RoundKey, id) && input.roundType.None? ==> r == Err(NotNull("round_type"))
      ensures r.Err? || r == Ok(None) ==> tables == old(tables)
      ensures r.Ok? && r.value.Some? ==>
        && HasKey(old(tables.rounds), RoundKey, id)
        && var k := IndexOfKey(old(tables.rounds), RoundKey, id).value;
           && r.value.value == RevisedRound(old(tables.rounds)[k], input)
           && tables == old(tables).(rounds := old(tables.rounds)[k := r.value.value])
      ensures r.Ok? && r.value.Some? ==> FindKey(tables.rounds, RoundKey, id) == r.value
    {
      var k := IndexOfKey(tables.rounds, RoundKey, id);
      if k.None? {
        r := Ok(None);
      } else if input.roundType.None? {
        r := Err(NotNull("round_type"));
      } else {
        var row := RevisedRound(tables.rounds[k.value], input);
        ReplaceRoundValid(tables, k.value, row);
        FindReplaced(tables.rounds, RoundKey, tables.nextRoundId, k.value, row);
        tables := tables.(rounds := tables.rounds[k.value := row]);
        r := Ok(Some(row));
      }
    }

    /** `DELETE /api/interviews/:id`. */
    method DeleteRound(id: int)
      requires Valid()
      modifies this
      ensures Valid()
      ensures tables == old(tables).(rounds := WithoutKey(old(tables.rounds), RoundKey, id))
    {
      DeleteRoundValid(tables, id);
      tables := tables.(rounds := WithoutKey(tables.rounds, RoundKey, id));
    }

    /** `POST /api/prep`. */
    method CreatePrep(input: PrepInput, now: string) returns (r: Result<PrepQuestion>)
      requires Valid()
      modifies this
      ensures Valid()
      ensures input.category.None? ==> r == Err(NotNull("category"))
      ensures input.category.Some? && input.question.None? ==> r == Err(NotNull("question"))
      ensures r.Ok? <==> input.category.Some? && input.question.Some?
      ensures r.Err? ==> tables == old(tables)
      ensures r.Ok? ==> r.value == NewPrep(old(tables.nextPrepId), input, now)
      ensures r.Ok? ==> tables == old(tables).(prep := old(tables.prep) + [r.value], nextPrepId := old(tables.nextPrepId) + 1)
    {
      if input.category.None? {
        r := Err(NotNull("category"));
      } else if input.question.None? {
        r := Err(NotNull("question"));
      } else {
        var row := NewPrep(tables.nextPrepId, input, now);
        AppendPrepValid(tables, row);
        tables := tables.(prep := tables.prep + [row], nextPrepId := tables.nextPrepId + 1);
        r := Ok(row);
      }
    }

    /** `PUT /api/prep/:id`. */
    method UpdatePrep(id: int, input: PrepInput) returns (r: Result<Option<PrepQuestion>>)
      requires Valid()
      modifies this
      ensures Valid()
      ensures !HasKey(old(tables.prep), PrepKey, id) ==> r == Ok(None)
      ensures HasKey(old(tables.prep), PrepKey, id) && input.category.None? ==> r == Err(NotNull("category"))
      ensures HasKey(old(tables.prep), PrepKey, id) && input.category.Some? && input.question.None? ==> r == Err(NotNull("question"))
      ensures r.Err? || r == Ok(None) ==> tables == old(tables)
      ensures r.Ok? && r.value.Some? ==>
        && HasKey(old(tables.prep), PrepKey, id)
        && var k := IndexOfKey(old(tables.prep), PrepKey, id).value;
           && r.value.value == RevisedPrep(old(tables.prep)[k], input)
           && tables == old(tables).(prep := old(tables.prep)[k := r.value.value])
      ensures r.Ok? && r.value.Some? ==> FindKey(tables.prep, PrepKey, id) == r.value
    {
      var k := IndexOfKey(tables.prep, PrepKey, id);
      if k.None? {
        r := Ok(None);
      } else if input.category.None? {
        r := Err(NotNull("category"));
      } else if input.question.None? {
        r := Err(NotNull("question"));
      } else {
        var row := RevisedPrep(tables.prep[k.value], input);
        ReplacePrepValid(tables, k.value, row);
        FindReplaced(tables.prep, PrepKey, tables.nextPrepId, k.value, row);
        tables := tables.(prep := tables.prep[k.value := row]);
        r := Ok(Some(row));
      }
    }

    /** `DELETE /api/prep/:id`. */
    method DeletePrep(id: int)
      requires Valid()
      modifies this
      ensures Valid()
      ensures tables == old(tables).(prep := WithoutKey(old(tables.prep), PrepKey, id))
    {
      DeletePrepValid(tables, id);
      tables := tables.(prep := WithoutKey(tables.prep, PrepKey, id));
    }
  }

  /** No row carries the counter's value. */
  lemma NoRowAtCounter<T>(rows: seq<T>, key: T -> int, next: int)
    requires Keyed(rows, key, next)
    ensures !HasKey(rows, key, next)
  {
  }

  /** After an append of a fresh key, looking that key up finds the new row. */
  lemma {:induction false} FindAppended<T>(rows: seq<T>, x: T, key: T -> int)
    requires !HasKey(rows, key, key(x))
    ensures FindKey(rows + [x], key, key(x)) == Some(x)
  {
    var r := rows + [x];
    assert key(r[|rows|]) == key(x);
    assert forall i :: 0 <= i < |rows| ==> r[i] == rows[i];
  }

  /** After a row is replaced by one with the same key, looking the key up finds it. */
  lemma {:induction false} FindReplaced<T>(rows: seq<T>, key: T -> int, next: int, k: nat, x: T)
    requires Keyed(rows, key, next)
    requires k < |rows| && key(x) == key(rows[k])
    ensures FindKey(rows[k := x], key, key(x)) == Some(x)
  {
    var r := rows[k := x];
    ReplaceKeyed(rows, key, next, k, x);
    assert key(r[k]) == key(x);
    var j := IndexOfKey(r, key, key(x)).value;
    KeyedUnique(r, key, next, j, k);
  }
}
