/**
 * The two value sets app.py validates against (app.py, lines 15-16) and the
 * three priority labels the classifier is trained on.
 */
module Labels {
  import opened Wrappers

  /** `VALID_STATUSES`. */
  const ValidStatuses: set<string> := {"pending", "in-progress", "resolved"}

  /** `VALID_PRIORITIES`. */
  const ValidPriorities: set<string> := {"low", "medium", "high"}

  /** The status a new message gets from the column default. */
  const Pending: string := "pending"

  /** A priority label, as stored in `predicted_priority` and `final_priority`. */
  datatype Label = Low | Medium | High

  function LabelName(l: Label): (r: string)
    ensures r in ValidPriorities
  {
    match l
    case Low => "low"
    case Medium => "medium"
    case High => "high"
  }

  /** The label spelled by a priority string, if any. */
  function ParseLabel(s: string): Option<Label> {
    if s == "low" then Some(Low)
    else if s == "medium" then Some(Medium)
    else if s == "high" then Some(High)
    else None
  }

  /** The names of the labels are exactly the valid priorities, and they name the labels one-to-one. */
  lemma LabelNamesAreValidPriorities()
    ensures forall l :: ParseLabel(LabelName(l)) == Some(l)
    ensures forall s :: s in ValidPriorities <==> ParseLabel(s).Some?
    ensures forall s :: ParseLabel(s).Some? ==> LabelName(ParseLabel(s).value) == s
  {
  }
}
