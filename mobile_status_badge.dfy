/** The mobile status badge (job-tracker-mobile/components/StatusBadge.js):
    the style string is split on ' ' into a background class and a text
    class, and the label falls back to the raw status. */
module MobileStatusBadge {
  import opened Wrappers
  import opened Strings
  import opened Schema

  /** STYLES, each entry written as its background and text class. */
  const StyleClasses: map<string, (string, string)> := map[
    "applied" := ("bg-blue-100", "text-blue-800"),
    "phone_screen" := ("bg-indigo-100", "text-indigo-800"),
    "oa" := ("bg-yellow-100", "text-yellow-800"),
    "technical" := ("bg-orange-100", "text-orange-800"),
    "onsite" := ("bg-pink-100", "text-pink-800"),
    "offer" := ("bg-green-100", "text-green-800"),
    "rejected" := ("bg-red-100", "text-red-800"),
    "withdrawn" := ("bg-gray-100", "text-gray-800")]

  /** The style strings, "bg text". */
  const Styles: map<string, string> := map k | k in StyleClasses :: StyleClasses[k].0 + " " + StyleClasses[k].1

  /** STATUS_LABELS. */
  const Labels: map<string, string> := map[
    "applied" := "Applied",
    "phone_screen" := "Phone",
    "oa" := "OA",
    "technical" := "Technical",
    "onsite" := "Onsite",
    "offer" := "Offer 🎉",
    "rejected" := "Rejected",
    "withdrawn" := "Withdrawn"]

  const Gray: string := "bg-gray-100 text-gray-800"

  /** `STYLES[status] || gray`: every table entry is non-empty, so this is the
      lookup with a gray fallback. */
  function StyleOf(status: Option<string>): (style: string)
    ensures status.Some? && status.value in Styles ==> style == Styles[status.value]
    ensures status.None? || status.value !in Styles ==> style == Gray
  {
    if status.Some? && status.value in Styles && Styles[status.value] != "" then Styles[status.value] else Gray
  }

  /** The two classes: `split(' ')[0]` and `split(' ')[1]`, the latter None
      (undefined) when the string has no space. */
  datatype Classes = Classes(bg: string, text: Option<string>)

  function ClassesOf(status: Option<string>): (c: Classes)
    ensures NoSpace(c.bg)
    ensures c.text.Some? ==> NoSpace(c.text.value)
  {
    var parts := Split(StyleOf(status), " ");
    NoOccurrenceNoChar(parts[0], ' ');
    if |parts| > 1 then NoOccurrenceNoChar(parts[1], ' '); Classes(parts[0], Some(parts[1]))
    else Classes(parts[0], None)
  }

  /** `STATUS_LABELS[status] || status`. */
  function LabelOf(status: Option<string>): (text: Option<string>)
    ensures status.Some? && status.value in Labels ==> text == Some(Labels[status.value])
    ensures status.None? || status.value !in Labels ==> text == status
  {
    if status.Some? && status.value in Labels && Labels[status.value] != "" then Some(Labels[status.value]) else status
  }

  predicate NoSpace(s: string)
  {
    ' ' !in s
  }

  /** No class name in the table holds a space. */
  lemma StyleClassesHaveNoSpace()
    ensures forall k :: k in StyleClasses ==> NoSpace(StyleClasses[k].0) && NoSpace(StyleClasses[k].1)
  {
  }

  /** Every style string, the fallback included, is exactly two classes
      joined by a space, so both classes are always defined. */
  lemma ClassesDefined(status: Option<string>)
    ensures var c := ClassesOf(status);
      c.text.Some? && c.bg + " " + c.text.value == StyleOf(status) && NoSpace(c.bg) && NoSpace(c.text.value)
  {
    if status.Some? && status.value in Styles {
      StyleClassesHaveNoSpace();
      var pair := StyleClasses[status.value];
      SplitAtOnlySeparator(pair.0, pair.1, ' ');
    } else {
      assert Gray == "bg-gray-100" + " " + "text-gray-800";
      SplitAtOnlySeparator("bg-gray-100", "text-gray-800", ' ');
    }
  }

  /** The eight statuses all have a style and a label. */
  lemma TablesCoverStatuses()
    ensures Styles.Keys == Labels.Keys
    ensures forall s :: s in Labels <==> s in Statuses
  {
  }
}
