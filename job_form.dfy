/** The add/edit job form (client/src/components/JobForm.jsx): the initial
    form state with its `??` defaults, the `set` field updater, the title and
    submit label, the status options and the submit. */
module JobForm {
  import opened Wrappers
  import opened Strings
  import opened Schema
  import StatusBadge

  /** A form value as the inputs hold it: text, a number copied from the job
      row, or a checkbox state. */
  datatype Value = Text(text: string) | Number(n: int) | Checked(on: bool)

  /** The form state: field name to value. */
  type Form = map<string, Value>

  /** The eleven fields of the form, each an input `name`. */
  const Fields: set<string> := {"company", "position", "location", "remote", "url", "status",
                                "applied_date", "deadline", "salary_min", "salary_max", "notes"}

  /** STATUSES: the status options. */
  const StatusOptions: seq<string> := ["applied", "phone_screen", "oa", "technical", "onsite", "offer", "rejected", "withdrawn"]

  /** The options are exactly the eight statuses, each with a table label. */
  lemma StatusOptionsAreStatuses()
    ensures StatusOptions == Statuses
    ensures forall s :: s in StatusOptions ==> s in StatusBadge.Labels
  {
    StatusBadge.TablesCoverStatuses();
  }

  /** `new Date().toISOString().split('T')[0]`: the text before the first 'T'. */
  function Today(isoNow: string): (day: string)
    ensures day == isoNow[..FirstIndex(isoNow, 'T')]
    ensures 'T' !in day
    ensures 'T' !in isoNow ==> day == isoNow
  {
    SplitFirstPiece(isoNow, 'T');
    Split(isoNow, "T")[0]
  }

  /** An ISO instant gives its date part. */
  lemma TodayOfIsoInstant(day: string, time: string)
    requires 'T' !in day && 'T' !in time
    ensures Today(day + "T" + time) == day
  {
    SplitAtOnlySeparator(day, time, 'T');
  }

  /** `job?.x ?? d` for a text column. */
  function TextOr(v: Option<string>, d: string): (r: Value)
    ensures v.Some? ==> r == Text(v.value)
    ensures v.None? ==> r == Text(d)
  {
    if v.Some? then Text(v.value) else Text(d)
  }

  /** `job?.x ?? ''` for an INTEGER column. */
  function NumberOrBlank(v: Option<int>): (r: Value)
    ensures v.Some? ==> r == Number(v.value)
    ensures v.None? ==> r == Text("")
  {
    if v.Some? then Number(v.value) else Text("")
  }

  /** The initial `useState` value: each field is the job's value unless it is
      null (or there is no job), in which case it takes its default. */
  function InitialForm(job: Option<Job>, today: string): (form: Form)
    ensures form.Keys == Fields
    ensures job.None? ==> form == map[
      "company" := Text(""), "position" := Text(""), "location" := Text(""), "remote" := Checked(false),
      "url" := Text(""), "status" := Text("applied"), "applied_date" := Text(today), "deadline" := Text(""),
      "salary_min" := Text(""), "salary_max" := Text(""), "notes" := Text("")]
    ensures job.Some? ==> form["company"] == Text(job.value.company) && form["position"] == Text(job.value.position)
    ensures job.Some? ==> form["remote"] == Number(job.value.remote)
    ensures job.Some? ==>
      && form["location"] == TextOr(job.value.location, "")
      && form["url"] == TextOr(job.value.url, "")
      && form["status"] == TextOr(job.value.status, "applied")
      && form["applied_date"] == TextOr(job.value.appliedDate, today)
      && form["deadline"] == TextOr(job.value.deadline, "")
      && form["salary_min"] == NumberOrBlank(job.value.salaryMin)
      && form["salary_max"] == NumberOrBlank(job.value.salaryMax)
      && form["notes"] == TextOr(job.value.notes, "")
  {
    match job
    case None =>
      map["company" := Text(""), "position" := Text(""), "location" := Text(""), "remote" := Checked(false),
          "url" := Text(""), "status" := Text("applied"), "applied_date" := Text(today), "deadline" := Text(""),
          "salary_min" := Text(""), "salary_max" := Text(""), "notes" := Text("")]
    case Some(j) =>
      map["company" := Text(j.company), "position" := Text(j.position), "location" := TextOr(j.location, ""),
          "remote" := Number(j.remote), "url" := TextOr(j.url, ""), "status" := TextOr(j.status, "applied"),
          "applied_date" := TextOr(j.appliedDate, today), "deadline" := TextOr(j.deadline, ""),
          "salary_min" := NumberOrBlank(j.salaryMin), "salary_max" := NumberOrBlank(j.salaryMax),
          "notes" := TextOr(j.notes, "")]
  }

  /** A field is the job's value exactly when the job has one, the default otherwise. */
  lemma InitialFormFromJob(j: Job, today: string)
    ensures var form := InitialForm(Some(j), today);
      && (form["status"] == Text("applied") <==> j.status.None? || j.status == Some("applied"))
      && (form["applied_date"] == Text(today) <==> j.appliedDate.None? || j.appliedDate == Some(today))
      && (form["location"] == Text("") <==> j.location.None? || j.location == Some(""))
      && (form["salary_min"] == Text("") <==> j.salaryMin.None?)
      && (form["salary_max"] == Text("") <==> j.salaryMax.None?)
  {
  }

  /** A new job starts as applied today. */
  lemma NewFormStartsApplied(today: string)
    ensures InitialForm(None, today)["status"] == Text("applied")
    ensures InitialForm(None, today)["applied_date"] == Text(today)
  {
  }

  /** `job ? 'Edit Job' : 'Add New Job'`. */
  function Title(job: Option<Job>): (t: string)
    ensures t == "Edit Job" <==> job.Some?
    ensures job.None? ==> t == "Add New Job"
  {
    if job.Some? then "Edit Job" else "Add New Job"
  }

  /** `job ? 'Save Changes' : 'Add Job'`. */
  function SubmitLabel(job: Option<Job>): (t: string)
    ensures t == "Save Changes" <==> job.Some?
    ensures job.None? ==> t == "Add Job"
  {
    if job.Some? then "Save Changes" else "Add Job"
  }

  /** What an input event writes: a checkbox its `checked`, anything else its `value`. */
  function EventValue(isCheckbox: bool, value: string, checked: bool): (v: Value)
    ensures isCheckbox <==> v.Checked?
    ensures v.Checked? ==> v.on == checked
    ensures v.Text? ==> v.text == value
  {
    if isCheckbox then Checked(checked) else Text(value)
  }

  /** The form with its state. */
  class JobFormState {
    var form: Form

    constructor(job: Option<Job>, today: string)
      ensures form == InitialForm(job, today)
      ensures Valid()
    {
      form := InitialForm(job, today);
    }

    /** Every field, and no other key, has a value. */
    predicate Valid()
      reads this
    {
      form.Keys == Fields
    }

    /** `set`: only the named field changes. */
    method Set(name: string, isCheckbox: bool, value: string, checked: bool)
      modifies this
      ensures form == old(form)[name := EventValue(isCheckbox, value, checked)]
      ensures forall f :: f in old(form) && f != name ==> f in form && form[f] == old(form)[f]
      ensures name in Fields && old(Valid()) ==> Valid()
    {
      form := form[name := EventValue(isCheckbox, value, checked)];
    }

    /** `onSave(form)`: the whole state is handed over. */
    method Submit() returns (saved: Form)
      ensures saved == form
    {
      saved := form;
    }
  }

  /** Typing a field's old text back restores the form. */
  method EditAndUndo(state: JobFormState, name: string, value: string)
    requires state.Valid() && name in Fields && state.form[name].Text?
    modifies state
    ensures state.form == old(state.form)
    ensures state.Valid()
  {
    var before := state.form[name].text;
    state.Set(name, false, value, false);
    state.Set(name, false, before, false);
  }
}
