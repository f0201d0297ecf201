/** The list of components/tasks/ListView.tsx: tasks grouped by status,
    one collapsible group per non-empty status, and a priority badge per
    row. */
module ListView {
  import opened Types
  import opened TaskFilter
  import opened Labels

  /** The order of the keys of the group record, which is the order the
      groups are rendered in. */
  const GroupOrder: seq<Status> := [Todo, InProgress, NeedReview, Done]

  /** The group headings of the list (statusConfigs). They differ from
      the shared status labels: in progress reads "On Progress" here. */
  function GroupLabel(s: Status): (r: string)
    ensures r != ""
    ensures r == "On Progress" <==> s == InProgress
  {
    match s
    case Todo => "To-do"
    case InProgress => "On Progress"
    case NeedReview => "Need Review"
    case Done => "Done"
  }

  /** A group heading is the shared status label of its status, except
      for the in-progress group. */
  lemma GroupLabelAgainstStatusLabel(s: Status)
    ensures GroupLabel(s) == GetStatusLabel(StatusCode(s)) <==> s != InProgress
  {
    assert GetStatusLabel(StatusCode(InProgress)) == "In Progress";
    assert "In Progress" != "On Progress" by { assert "In Progress"[0] != "On Progress"[0]; }
  }

  datatype Badge = Badge(caption: string, color: string)

  const HighBadge := Badge("High", "bg-red-100 text-red-600")
  const MediumBadge := Badge("Medium", "bg-yellow-100 text-yellow-600")
  const LowBadge := Badge("Low", "bg-blue-100 text-blue-600")

  /** getPriorityBadge: a missing or empty priority reads as "medium", and
      every key without an entry (urgent among them) gets the medium
      badge; only "high" and "low" get badges of their own. */
  function GetPriorityBadge(priority: Option<string>): (r: Badge)
    ensures r == HighBadge <==> priority == Some("high")
    ensures r == LowBadge <==> priority == Some("low")
    ensures r == MediumBadge <==> priority != Some("high") && priority != Some("low")
  {
    var key := if priority.None? || priority.value == "" then "medium" else priority.value;
    if key == "high" then HighBadge
    else if key == "medium" then MediumBadge
    else if key == "low" then LowBadge
    else MediumBadge
  }

  /** The badge each priority of a task receives: urgent shows as medium. */
  lemma BadgesOfPriorities()
    ensures GetPriorityBadge(Some(PriorityCode(High))) == HighBadge
    ensures GetPriorityBadge(Some(PriorityCode(Medium))) == MediumBadge
    ensures GetPriorityBadge(Some(PriorityCode(Low))) == LowBadge
    ensures GetPriorityBadge(Some(PriorityCode(Urgent))) == MediumBadge
    ensures GetPriorityBadge(None) == MediumBadge
  {
  }

  /** The `forEach` that pushes every task onto the array of its status:
      each group ends up holding exactly the tasks of its status, in list
      order. */
  method GroupTasks(tasks: seq<Task>) returns (groups: map<Status, seq<Task>>)
    ensures forall s: Status :: s in groups && groups[s] == WithStatus(tasks, s)
  {
    groups := map[Todo := [], InProgress := [], NeedReview := [], Done := []];
    assert tasks[..0] == [];
    forall s: Status
      ensures s in groups && groups[s] == WithStatus(tasks[..0], s)
    {
      match s {
        case Todo =>
        case InProgress =>
        case NeedReview =>
        case Done =>
      }
    }
    for i := 0 to |tasks|
      invariant forall s: Status :: s in groups && groups[s] == WithStatus(tasks[..i], s)
    {
      var t := tasks[i];
      assert tasks[..i + 1] == tasks[..i] + [t];
      forall s: Status
        ensures WithStatus(tasks[..i + 1], s) == WithStatus(tasks[..i], s) + (if t.status == s then [t] else [])
      {
        WithStatusSnoc(tasks[..i], t, s);
      }
      groups := groups[t.status := groups[t.status] + [t]];
    }
    assert tasks[..|tasks|] == tasks;
  }

  /** A rendered group heading: its label and the count it shows. */
  datatype GroupView = GroupView(status: Status, heading: string, count: nat, tasks: seq<Task>)

  /** StatusGroup: nothing for an empty group, otherwise the heading with
      the number of tasks. */
  function StatusGroup(status: Status, tasks: seq<Task>): (r: Option<GroupView>)
    ensures r.None? <==> tasks == []
    ensures r.Some? ==> r.value.status == status && r.value.heading == GroupLabel(status)
    ensures r.Some? ==> r.value.tasks == tasks && r.value.count == |tasks| > 0
  {
    if |tasks| == 0 then None else Some(GroupView(status, GroupLabel(status), |tasks|, tasks))
  }

  /** What the list renders: the loading notice, the error notice, or the
      groups followed by the "No tasks found" notice when there are no
      tasks at all. */
  datatype ListScreen = LoadingNotice | ErrorNotice | Groups(groups: seq<Option<GroupView>>, emptyNotice: bool)

  /** ListView: loading wins over a (non-empty) error, which wins over the
      groups; the groups come in key order, one per status, each the
      StatusGroup of the tasks of that status. */
  method RenderList(tasks: seq<Task>, loading: bool, error: Option<string>) returns (v: ListScreen)
    ensures v.LoadingNotice? <==> loading
    ensures v.ErrorNotice? <==> !loading && error.Some? && error.value != ""
    ensures v.Groups? ==> |v.groups| == |GroupOrder|
    ensures v.Groups? ==> forall k :: 0 <= k < |v.groups| ==> v.groups[k] == StatusGroup(GroupOrder[k], WithStatus(tasks, GroupOrder[k]))
    ensures v.Groups? ==> (v.emptyNotice <==> tasks == [])
  {
    var grouped := GroupTasks(tasks);
    if loading {
      return LoadingNotice;
    }
    if error.Some? && error.value != "" {
      return ErrorNotice;
    }
    var groups := seq(|GroupOrder|, k requires 0 <= k < |GroupOrder| => StatusGroup(GroupOrder[k], grouped[GroupOrder[k]]));
    return Groups(groups, |tasks| == 0);
  }

  /** The total a rendered group list shows. */
  function ShownCount(groups: seq<Option<GroupView>>): nat
  {
    if groups == [] then 0
    else (if groups[0].Some? then groups[0].value.count else 0) + ShownCount(groups[1..])
  }

  /** The groups of a list shown as groups account for every task once,
      and the "No tasks found" notice appears exactly when no group does. */
  lemma GroupsCoverTasks(tasks: seq<Task>)
    ensures var groups := seq(|GroupOrder|, k requires 0 <= k < |GroupOrder| => StatusGroup(GroupOrder[k], WithStatus(tasks, GroupOrder[k])));
      && ShownCount(groups) == |tasks|
      && (tasks == [] <==> forall k :: 0 <= k < |groups| ==> groups[k].None?)
  {
    var groups := seq(|GroupOrder|, k requires 0 <= k < |GroupOrder| => StatusGroup(GroupOrder[k], WithStatus(tasks, GroupOrder[k])));
    StatusPartition(tasks);
    assert ShownCount(groups[3..]) == |WithStatus(tasks, Done)|;
    assert ShownCount(groups[2..]) == |WithStatus(tasks, NeedReview)| + ShownCount(groups[3..]);
    assert ShownCount(groups[1..]) == |WithStatus(tasks, InProgress)| + ShownCount(groups[2..]);
    if tasks != [] {
      var t := tasks[0];
      assert t in WithStatus(tasks, t.status);
      var k := if t.status == Todo then 0 else if t.status == InProgress then 1 else if t.status == NeedReview then 2 else 3;
      assert groups[k].Some?;
    }
  }
}
