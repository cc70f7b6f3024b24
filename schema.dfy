/** The four tables of the store (server/db.js) and the request bodies the
    handlers read (server/index.js). A nullable TEXT or INTEGER column is an
    Option; a NOT NULL column is a plain value. */
module Schema {
  import opened Wrappers
  import opened Strings
  import Seqs

  /** A row of `jobs`. company and position are NOT NULL; remote is written as
      1 or 0 by every handler; created_at and updated_at default to the time of
      the insert. */
  datatype Job = Job(
    id: int,
    company: string,
    position: string,
    location: Option<string>,
    remote: int,
    url: Option<string>,
    status: Option<string>,
    appliedDate: Option<string>,
    deadline: Option<string>,
    salaryMin: Option<int>,
    salaryMax: Option<int>,
    notes: Option<string>,
    createdAt: string,
    updatedAt: string)

  /** A row of `contacts`; job_id references jobs(id) ON DELETE CASCADE. */
  datatype Contact = Contact(
    id: int,
    jobId: int,
    name: string,
    email: Option<string>,
    phone: Option<string>,
    role: Option<string>,
    notes: Option<string>)

  /** A row of `interview_rounds`; job_id references jobs(id) ON DELETE CASCADE. */
  datatype Round = Round(
    id: int,
    jobId: int,
    roundType: string,
    scheduledDate: Option<string>,
    interviewer: Option<string>,
    notes: Option<string>,
    questionsAsked: Option<string>,
    outcome: Option<string>,
    createdAt: string)

  /** A row of `prep_questions`. */
  datatype PrepQuestion = PrepQuestion(
    id: int,
    category: string,
    question: string,
    answer: Option<string>,
    tags: Option<string>,
    difficulty: Option<string>,
    practiced: int,
    createdAt: string)

  /** A salary in a request body. The job form sends the text of a number
      input: empty once cleared, otherwise the spelling of a whole number
      (kept as that number). The job page resends a stored row, whose salary
      is a JSON number. */
  datatype Amount = Numeric(amount: int) | Typed(amount: int) | Cleared

  /** The fields of a job request body. A text field is None when the body has
      null or no value for it; remote is the truthiness of the value sent. */
  datatype JobInput = JobInput(
    company: Option<string>,
    position: Option<string>,
    location: Option<string>,
    remote: bool,
    url: Option<string>,
    status: Option<string>,
    appliedDate: Option<string>,
    deadline: Option<string>,
    salaryMin: Option<Amount>,
    salaryMax: Option<Amount>,
    notes: Option<string>)

  datatype ContactInput = ContactInput(
    name: Option<string>,
    email: Option<string>,
    phone: Option<string>,
    role: Option<string>,
    notes: Option<string>)

  datatype RoundInput = RoundInput(
    roundType: Option<string>,
    scheduledDate: Option<string>,
    interviewer: Option<string>,
    notes: Option<string>,
    questionsAsked: Option<string>,
    outcome: Option<string>)

  /** practiced is the truthiness of the value sent. */
  datatype PrepInput = PrepInput(
    category: Option<string>,
    question: Option<string>,
    answer: Option<string>,
    tags: Option<string>,
    difficulty: Option<string>,
    practiced: bool)

  /** Why a statement was refused by the store. */
  datatype DbError = NotNull(column: string) | ForeignKey

  datatype Result<T> = Ok(value: T) | Err(error: DbError)

  /** JavaScript truthiness of a string-or-null value. */
  predicate Truthy(s: Option<string>)
  {
    s.Some? && s.value != ""
  }

  /** JavaScript truthiness of a number-or-null value. */
  predicate TruthyNumber(x: Option<int>)
  {
    x.Some? && x.value != 0
  }

  /** `x || 0`. */
  function OrZero(x: Option<int>): (n: int)
    ensures TruthyNumber(x) ==> n == x.value
    ensures !TruthyNumber(x) ==> n == 0
  {
    if TruthyNumber(x) then x.value else 0
  }

  /** `x || null` for a salary, then the INTEGER column's affinity: null, the
      number 0 and a cleared input become NULL; any other amount is stored,
      including a typed "0", which is truthy as text and stored as 0. */
  function SalaryOrNull(x: Option<Amount>): (r: Option<int>)
    ensures r.None? <==> (x.None? || x == Some(Cleared) || x == Some(Numeric(0)))
    ensures r.Some? ==> r == Some(x.value.amount)
    ensures r == Some(0) <==> x == Some(Typed(0))
  {
    match x
    case None => None
    case Some(Cleared) => None
    case Some(Numeric(n)) => if n == 0 then None else Some(n)
    case Some(Typed(n)) => Some(n)
  }

  /** `x ? 1 : 0`. */
  function Flag(b: bool): (n: int)
    ensures n == 0 || n == 1
    ensures n == 1 <==> b
  {
    if b then 1 else 0
  }

  /** The statuses the interface offers, in pipeline order. */
  const Statuses: seq<string> :=
    ["applied", "phone_screen", "oa", "technical", "onsite", "offer", "rejected", "withdrawn"]

  /** The five real prep categories (the page's 'all' is a filter, not a category). */
  const Categories: seq<string> := ["behavioral", "dsa", "system_design", "coding", "company_specific"]

  // ---------------------------------------------------------------------------
  // Orders used by ORDER BY
  // ---------------------------------------------------------------------------

  /** Ascending order of a nullable TEXT column: NULL sorts first in SQLite. */
  predicate OptTextLe(a: Option<string>, b: Option<string>)
  {
    a.None? || (b.Some? && TextLe(a.value, b.value))
  }

  /** ORDER BY created_at DESC. */
  predicate NewerFirst(a: Job, b: Job)
  {
    TextLe(b.createdAt, a.createdAt)
  }

  /** ORDER BY deadline ASC. */
  predicate EarlierDeadline(a: Job, b: Job)
  {
    OptTextLe(a.deadline, b.deadline)
  }

  /** ORDER BY scheduled_date ASC. */
  predicate EarlierRound(a: Round, b: Round)
  {
    OptTextLe(a.scheduledDate, b.scheduledDate)
  }

  /** ORDER BY category, created_at DESC. */
  predicate PrepOrder(a: PrepQuestion, b: PrepQuestion)
  {
    if a.category == b.category then TextLe(b.createdAt, a.createdAt)
    else TextLe(a.category, b.category)
  }

  lemma OptTextLeTotalPreorder()
    ensures forall a, b :: OptTextLe(a, b) || OptTextLe(b, a)
    ensures forall a, b, c :: OptTextLe(a, b) && OptTextLe(b, c) ==> OptTextLe(a, c)
  {
    forall a: Option<string>, b: Option<string> ensures OptTextLe(a, b) || OptTextLe(b, a) {
      if a.Some? && b.Some? { TextLeTotal(a.value, b.value); }
    }
    forall a: Option<string>, b: Option<string>, c: Option<string> | OptTextLe(a, b) && OptTextLe(b, c)
      ensures OptTextLe(a, c)
    {
      if a.Some? { TextLeTransitive(a.value, b.value, c.value); }
    }
  }

  lemma NewerFirstTotalPreorder()
    ensures Seqs.TotalPreorder(NewerFirst)
  {
    forall a: Job, b: Job ensures NewerFirst(a, b) || NewerFirst(b, a) {
      TextLeTotal(a.createdAt, b.createdAt);
    }
    forall a: Job, b: Job, c: Job | NewerFirst(a, b) && NewerFirst(b, c) ensures NewerFirst(a, c) {
      TextLeTransitive(c.createdAt, b.createdAt, a.createdAt);
    }
  }

  lemma EarlierDeadlineTotalPreorder()
    ensures Seqs.TotalPreorder(EarlierDeadline)
  {
    OptTextLeTotalPreorder();
  }

  lemma EarlierRoundTotalPreorder()
    ensures Seqs.TotalPreorder(EarlierRound)
  {
    OptTextLeTotalPreorder();
  }

  lemma PrepOrderTotalPreorder()
    ensures Seqs.TotalPreorder(PrepOrder)
  {
    forall a: PrepQuestion, b: PrepQuestion ensures PrepOrder(a, b) || PrepOrder(b, a) {
      TextLeTotal(a.category, b.category);
      TextLeTotal(a.createdAt, b.createdAt);
    }
    forall a: PrepQuestion, b: PrepQuestion, c: PrepQuestion | PrepOrder(a, b) && PrepOrder(b, c)
      ensures PrepOrder(a, c)
    {
      if a.category == b.category && b.category == c.category {
        TextLeTransitive(c.createdAt, b.createdAt, a.createdAt);
      } else if a.category == b.category {
      } else if b.category == c.category {
      } else {
        TextLeTransitive(a.category, b.category, c.category);
        if a.category == c.category {
          TextLeAntisymmetric(a.category, b.category);
        }
      }
    }
  }
}
