/** The display labels of lib/utils.ts: constant tables keyed by the
    string codes, with the key itself as the fallback. */
module Labels {
  import opened Types

  /** The entries of the priority table. */
  function PriorityLabelEntry(key: string): Option<string>
  {
    if key == "low" then Some("Low Priority")
    else if key == "medium" then Some("Medium Priority")
    else if key == "high" then Some("High Priority")
    else if key == "urgent" then Some("Urgent")
    else None
  }

  /** The entries of the status table. */
  function StatusLabelEntry(key: string): Option<string>
  {
    if key == "todo" then Some("To-do")
    else if key == "in_progress" then Some("In Progress")
    else if key == "need_review" then Some("Need Review")
    else if key == "done" then Some("Done")
    else None
  }

  /** getPriorityLabel: the table's label, or the key unchanged when the
      table has no entry (every label is non-empty, so `||` falls back
      only on a missing entry). The key comes back unchanged exactly when
      it is not in the table. */
  function GetPriorityLabel(priority: string): (r: string)
    ensures r == priority <==> PriorityLabelEntry(priority).None?
    ensures priority != "" ==> r != ""
  {
    match PriorityLabelEntry(priority)
    case Some(text) => text
    case None => priority
  }

  /** getStatusLabel: the table's label, or the key unchanged. */
  function GetStatusLabel(status: string): (r: string)
    ensures r == status <==> StatusLabelEntry(status).None?
    ensures status != "" ==> r != ""
  {
    match StatusLabelEntry(status)
    case Some(text) => text
    case None => status
  }

  /** The label each priority code receives. */
  lemma PriorityLabels()
    ensures GetPriorityLabel(PriorityCode(Low)) == "Low Priority"
    ensures GetPriorityLabel(PriorityCode(Medium)) == "Medium Priority"
    ensures GetPriorityLabel(PriorityCode(High)) == "High Priority"
    ensures GetPriorityLabel(PriorityCode(Urgent)) == "Urgent"
    ensures GetPriorityLabel("unknown") == "unknown"
  {
  }

  /** The label each status code receives. */
  lemma StatusLabels()
    ensures GetStatusLabel(StatusCode(Todo)) == "To-do"
    ensures GetStatusLabel(StatusCode(InProgress)) == "In Progress"
    ensures GetStatusLabel(StatusCode(NeedReview)) == "Need Review"
    ensures GetStatusLabel(StatusCode(Done)) == "Done"
    ensures GetStatusLabel("unknown") == "unknown"
  {
  }

  /** Distinct priorities get distinct labels, and distinct statuses
      get distinct labels. */
  lemma LabelsDistinguish(p: Priority, q: Priority, s: Status, t: Status)
    ensures GetPriorityLabel(PriorityCode(p)) == GetPriorityLabel(PriorityCode(q)) ==> p == q
    ensures GetStatusLabel(StatusCode(s)) == GetStatusLabel(StatusCode(t)) ==> s == t
  {
  }

  /** No label is itself a key, so labelling a label returns it
      unchanged: both lookups are idempotent. */
  lemma LabelsIdempotent(key: string)
    ensures GetPriorityLabel(GetPriorityLabel(key)) == GetPriorityLabel(key)
    ensures GetStatusLabel(GetStatusLabel(key)) == GetStatusLabel(key)
  {
  }
}
