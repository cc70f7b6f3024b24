/** The web status badge (client/src/components/StatusBadge.jsx): a style and
    a label per status, each falling back for a status outside the tables. */
module StatusBadge {
  import opened Wrappers
  import opened Schema

  /** STYLES. */
  const Styles: map<string, string> := map[
    "applied" := "bg-blue-100 text-blue-800",
    "phone_screen" := "bg-yellow-100 text-yellow-800",
    "oa" := "bg-indigo-100 text-indigo-800",
    "technical" := "bg-orange-100 text-orange-800",
    "onsite" := "bg-purple-100 text-purple-800",
    "offer" := "bg-green-100 text-green-800",
    "rejected" := "bg-red-100 text-red-800",
    "withdrawn" := "bg-gray-100 text-gray-800"]

  /** STATUS_LABELS. */
  const Labels: map<string, string> := map[
    "applied" := "Applied",
    "phone_screen" := "Phone Screen",
    "oa" := "Online Assessment",
    "technical" := "Technical",
    "onsite" := "Onsite",
    "offer" := "Offer",
    "rejected" := "Rejected",
    "withdrawn" := "Withdrawn"]

  /** The style of a status the table does not know. */
  const Gray: string := "bg-gray-100 text-gray-800"

  /** `STYLES[status] ?? gray`; a NULL status is looked up as "null" and so is gray. */
  function StyleOf(status: Option<string>): (style: string)
    ensures status.Some? && status.value in Styles ==> style == Styles[status.value]
    ensures status.None? || status.value !in Styles ==> style == Gray
  {
    if status.Some? && status.value in Styles then Styles[status.value] else Gray
  }

  /** `STATUS_LABELS[status] ?? status`: the raw value when the table has no entry. */
  function LabelOf(status: Option<string>): (text: Option<string>)
    ensures status.Some? && status.value in Labels ==> text == Some(Labels[status.value])
    ensures status.None? || status.value !in Labels ==> text == status
  {
    if status.Some? && status.value in Labels then Some(Labels[status.value]) else status
  }

  /** Both tables are keyed by exactly the eight statuses a job can take. */
  lemma TablesCoverStatuses()
    ensures Styles.Keys == Labels.Keys
    ensures forall s :: s in Labels <==> s in Statuses
  {
  }

  /** No two statuses share a label, so a label names its status. */
  lemma LabelsDistinct()
    ensures forall a, b :: a in Labels && b in Labels && a != b ==> Labels[a] != Labels[b]
  {
  }

  /** Every job status gets a table label, not its raw value. */
  lemma KnownStatusLabelled(s: string)
    requires s in Statuses
    ensures LabelOf(Some(s)) != Some(s)
  {
  }
}
