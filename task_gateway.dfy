/** The upstream half of lib/api/taskService.ts: the requests each
    operation issues (paths and JSON bodies) and the mapping from the
    upstream todo record to a Task. The network calls themselves are not
    modelled; the store receives their outcomes as parameters. */
module TaskGateway {
  import opened Types
  import opened Text
  import opened Seqs

  const BaseUrl := "/todos"
  const PageLimit := 50
  const LocalIdPrefix := "task-"
  const DayMs := 86400000

  /** The upstream record (DummyJsonTodo). */
  datatype UpstreamTodo = UpstreamTodo(id: int, todo: string, completed: bool, userId: int)

  /** An id as callers pass it: `string | number`. */
  datatype TaskId = StrId(s: string) | NumId(n: int)

  /** The argument of createTask: a Task without id and timestamps. */
  datatype TaskDraft = TaskDraft(
    title: string,
    description: string,
    status: Status,
    priority: Priority,
    dueDate: int,
    assignees: seq<Assignee>,
    checklists: seq<Checklist>,
    comments: seq<Comment>,
    attachments: int,
    tags: seq<string>)

  /** The argument of updateTask: `Partial<Task>`. */
  datatype TaskPatch = TaskPatch(
    id: Option<string>,
    title: Option<string>,
    description: Option<string>,
    status: Option<Status>,
    priority: Option<Priority>,
    dueDate: Option<int>,
    createdAt: Option<int>,
    updatedAt: Option<int>,
    assignees: Option<seq<Assignee>>,
    checklists: Option<seq<Checklist>>,
    comments: Option<seq<Comment>>,
    attachments: Option<int>,
    tags: Option<seq<string>>)

  /** A JSON body `{todo, completed, userId}`; a None field is left out of
      the JSON text (`undefined` is not serialised). */
  datatype TodoBody = TodoBody(todo: Option<string>, completed: bool, userId: Option<int>)

  datatype Verb = Get | Post | Put | Delete

  datatype Request = Request(verb: Verb, path: string, body: Option<TodoBody>)

  /** The id segment of the URL in updateTask/deleteTask: a string loses
      its first "task-" (wherever it occurs), a number is rendered in
      decimal. */
  function UpstreamId(id: TaskId): (r: string)
    ensures id.NumId? ==> r == IntToString(id.n)
    ensures id.StrId? && !Contains(id.s, LocalIdPrefix) ==> r == id.s
    ensures id.StrId? && Contains(id.s, LocalIdPrefix) ==> |r| == |id.s| - |LocalIdPrefix|
    ensures id.StrId? && Contains(id.s, LocalIdPrefix) ==> var i := IndexOf(id.s, LocalIdPrefix).value;
      r == id.s[..i] + id.s[i + |LocalIdPrefix|..]
  {
    match id
    case StrId(s) => ReplaceFirst(s, LocalIdPrefix, "")
    case NumId(n) => IntToString(n)
  }

  function ItemPath(id: TaskId): string
  {
    BaseUrl + "/" + UpstreamId(id)
  }

  /** getTasks asks for one page of at most 50 records, the same bound
      mapTodosToTasks keeps. */
  function GetTasksRequest(): (r: Request)
    ensures r.verb == Get && r.body.None?
    ensures r.path == BaseUrl + "?limit=" + NatToString(PageLimit)
  {
    assert NatToString(5) == "5" && NatToString(0) == "0";
    Request(Get, BaseUrl + "?limit=50", None)
  }

  /** getTask puts the id into the URL as given: unlike update and delete,
      a string id keeps its "task-" prefix. */
  function GetTaskRequest(id: TaskId): (r: Request)
    ensures r.verb == Get && r.body.None?
    ensures id.StrId? ==> r.path == BaseUrl + "/" + id.s
    ensures id.NumId? ==> r.path == ItemPath(id)
  {
    var segment := match id
      case StrId(s) => s
      case NumId(n) => IntToString(n);
    Request(Get, BaseUrl + "/" + segment, None)
  }

  /** Fetching one task by a local id "task-<n>" asks for a different
      path than deleting or updating it does. */
  lemma GetKeepsLocalPrefix(n: int)
    ensures GetTaskRequest(StrId(LocalIdPrefix + IntToString(n))).path
         == BaseUrl + "/" + LocalIdPrefix + IntToString(n)
    ensures GetTaskRequest(StrId(LocalIdPrefix + IntToString(n))).path
         != DeleteTaskRequest(StrId(LocalIdPrefix + IntToString(n))).path
  {
    var digits := IntToString(n);
    var local := LocalIdPrefix + digits;
    LocalIdLosesPrefix(digits);
    AppendAssoc(BaseUrl + "/", LocalIdPrefix, digits);
    DistinctTails(BaseUrl + "/", local, digits);
  }

  /** A local id "task-<rest>" reaches upstream as <rest>. */
  lemma LocalIdLosesPrefix(rest: string)
    ensures UpstreamId(StrId(LocalIdPrefix + rest)) == rest
  {
    ReplaceLeadingPattern(LocalIdPrefix, rest);
  }

  /** By the bare number, fetching and deleting ask for the same path. */
  lemma GetAgreesByNumber(n: int)
    ensures GetTaskRequest(NumId(n)).path == DeleteTaskRequest(NumId(n)).path
         == BaseUrl + "/" + IntToString(n)
  {
  }

  /** createTask sends only the title; status, priority, due date,
      assignees, checklists and tags of the draft are not sent. */
  function CreateTaskRequest(draft: TaskDraft): (r: Request)
    ensures r.verb == Post && r.path == "/todos/add"
    ensures r.body == Some(TodoBody(Some(draft.title), false, Some(1)))
  {
    Request(Post, BaseUrl + "/add", Some(TodoBody(Some(draft.title), false, Some(1))))
  }

  /** updateTask sends the title (left out when absent from the patch) and
      a completed flag that is true exactly when the patch sets status to
      done; every other field of the patch is dropped. */
  function UpdateTaskRequest(id: TaskId, updates: TaskPatch): (r: Request)
    ensures r.verb == Put && r.path == ItemPath(id) && r.body.Some?
    ensures r.body.value.todo == updates.title && r.body.value.userId.None?
    ensures r.body.value.completed <==> updates.status == Some(Done)
  {
    Request(Put, ItemPath(id), Some(TodoBody(updates.title, updates.status == Some(Done), None)))
  }

  function DeleteTaskRequest(id: TaskId): (r: Request)
    ensures r.verb == Delete && r.path == ItemPath(id) && r.body.None?
  {
    Request(Delete, ItemPath(id), None)
  }

  /** A local id "task-<n>" and the bare number n address the same
      upstream record. */
  lemma LocalAndNumericIdsAgree(n: int)
    ensures ItemPath(StrId(LocalIdPrefix + IntToString(n))) == ItemPath(NumId(n))
    ensures UpdateTaskRequest(StrId(LocalIdPrefix + IntToString(n)), NoPatch).path == UpdateTaskRequest(NumId(n), NoPatch).path
    ensures DeleteTaskRequest(StrId(LocalIdPrefix + IntToString(n))) == DeleteTaskRequest(NumId(n))
  {
    LocalIdLosesPrefix(IntToString(n));
  }

  const NoPatch := TaskPatch(None, None, None, None, None, None, None, None, None, None, None, None, None)

  /** Whatever a draft carries besides its title never reaches upstream. */
  lemma CreateSendsOnlyTitle(d1: TaskDraft, d2: TaskDraft)
    requires d1.title == d2.title
    ensures CreateTaskRequest(d1) == CreateTaskRequest(d2)
  {
  }

  /** A patch that does not mention status sends `completed: false`. */
  lemma UpdateWithoutStatusSendsIncomplete(id: TaskId, updates: TaskPatch)
    requires updates.status.None?
    ensures UpdateTaskRequest(id, updates).body.value.completed == false
  {
  }

  type DueOffset = d: int | 0 <= d < 30
  type CreatedAgo = a: int | 0 <= a <= 30 * DayMs
  type ChecklistDone = c: int | 0 <= c < 4
  type AttachmentCount = c: int | 0 <= c < 3

  /** The values mapTodoToTask draws from Math.random() and the clock, in
      milliseconds: `dueClock` is read by `new Date()` for the due date,
      `createdClock` by `Date.now()` for the creation time, and
      `updatedClock` by `new Date()` for the update time. */
  datatype Enrichment = Enrichment(
    dueClock: int,
    createdClock: int,
    updatedClock: int,
    dueInDays: DueOffset,
    createdAgo: CreatedAgo,
    checklistDone: ChecklistDone,
    attachments: AttachmentCount)

  const Statuses: seq<Status> := [Todo, InProgress, NeedReview, Done]
  const Priorities: seq<Priority> := [Low, Medium, High, Urgent]
  const TagPool: seq<string> := ["important", "review"]

  /** The instant `new Date(d)` yields for the date part "YYYY-MM-DD" of
      the ISO rendering of instant `t`: midnight UTC of that day. */
  function DayStart(t: int): (r: int)
    ensures r % DayMs == 0 && t - DayMs < r <= t
  {
    (t / DayMs) * DayMs
  }

  /** mapTodoToTask(todo, index). */
  function MapTodoToTask(todo: UpstreamTodo, index: nat, e: Enrichment): (r: Task)
    ensures r.id == LocalIdPrefix + IntToString(if todo.id != 0 then todo.id else index)
    ensures r.title != "" && (todo.todo != "" ==> r.title == todo.todo)
    ensures todo.todo == "" ==> r.title == "Task " + IntToString(index)
    ensures r.status == Done <==> todo.completed
    ensures !todo.completed ==> r.status == Statuses[index % 3]
    ensures r.priority == Priorities[index % 4]
    ensures |r.tags| == index % 2 + 1 && r.tags <= TagPool
    ensures |r.checklists| == 1 && r.checklists[0].total == 4
    ensures 0 <= r.checklists[0].completed < r.checklists[0].total
    ensures 0 <= r.attachments <= 2
    ensures e.createdClock - 30 * DayMs <= r.createdAt <= e.createdClock && r.updatedAt == e.updatedClock
    ensures r.dueDate % DayMs == 0 && e.dueClock - DayMs < r.dueDate <= e.dueClock + 29 * DayMs
    ensures |r.assignees| == 1 && r.comments == []
  {
    var title := if todo.todo != "" then todo.todo else "Task " + IntToString(index);
    var member := NatToString(index % 5 + 1);
    Task(
      id := LocalIdPrefix + IntToString(if todo.id != 0 then todo.id else index),
      title := title,
      description := "Task description for " + title,
      status := Statuses[if todo.completed then 3 else index % 3],
      priority := Priorities[index % 4],
      dueDate := DayStart(e.dueClock + e.dueInDays * DayMs),
      createdAt := e.createdClock - e.createdAgo,
      updatedAt := e.updatedClock,
      assignees := [Assignee(
        "user-" + member,
        "Team Member " + member,
        "https://api.dicebear.com/7.x/avataaars/svg?seed=user" + NatToString(index),
        "user" + NatToString(index) + "@example.com")],
      checklists := [Checklist("checklist-" + NatToString(index), "Subtasks", e.checklistDone, 4)],
      comments := [],
      attachments := e.attachments,
      tags := TagPool[..index % 2 + 1])
  }

  /** mapTodosToTasks: at most the first 50 records, numbered from 1;
      `draws(k)` is what the k-th mapping draws. */
  function MapTodosToTasks(todos: seq<UpstreamTodo>, draws: nat -> Enrichment): (r: seq<Task>)
    ensures |r| == if |todos| < PageLimit then |todos| else PageLimit
  {
    var n := if |todos| < PageLimit then |todos| else PageLimit;
    seq(n, k requires 0 <= k < n => MapTodoToTask(todos[k], k + 1, draws(k)))
  }

  /** A mapped list has a done task exactly where the upstream record was
      completed, a priority and tags chosen by the 1-based position, and a
      record with a non-zero id is addressed again by the id it was given. */
  lemma MappedListRoundTrip(todos: seq<UpstreamTodo>, draws: nat -> Enrichment, k: nat)
    requires k < |MapTodosToTasks(todos, draws)|
    ensures MapTodosToTasks(todos, draws)[k] == MapTodoToTask(todos[k], k + 1, draws(k))
    ensures MapTodosToTasks(todos, draws)[k].status == Done <==> todos[k].completed
    ensures MapTodosToTasks(todos, draws)[k].priority == Priorities[(k + 1) % 4]
    ensures |MapTodosToTasks(todos, draws)[k].tags| == (k + 1) % 2 + 1
    ensures todos[k].id != 0 ==> ItemPath(StrId(MapTodosToTasks(todos, draws)[k].id)) == ItemPath(NumId(todos[k].id))
  {
    var task := MapTodoToTask(todos[k], k + 1, draws(k));
    assert MapTodosToTasks(todos, draws)[k] == task;
    if todos[k].id != 0 {
      assert task.id == LocalIdPrefix + IntToString(todos[k].id);
      LocalAndNumericIdsAgree(todos[k].id);
    }
  }

  /** createTask/getTask map the response with its own id as the index.
      A negative index is outside the model (the source would index the
      status and priority tables out of range), reported as None. */
  function MapResponse(todo: UpstreamTodo, e: Enrichment): (r: Option<Task>)
    ensures r.Some? <==> todo.id >= 0
    ensures r.Some? ==> r.value == MapTodoToTask(todo, todo.id, e)
    ensures todo.id > 0 ==> r.value.id == LocalIdPrefix + IntToString(todo.id)
  {
    if todo.id >= 0 then Some(MapTodoToTask(todo, todo.id, e)) else None
  }

  /** updateTask maps the response with `Number(numericId)` as the index.
      Only decimal digit strings (optionally signed) are read as numbers
      here; None stands for every other case. */
  function MapUpdateResponse(id: TaskId, todo: UpstreamTodo, e: Enrichment): (r: Option<Task>)
    ensures r.Some? <==> ParseInt(UpstreamId(id)).Some? && ParseInt(UpstreamId(id)).value >= 0
    ensures r.Some? ==> r.value == MapTodoToTask(todo, ParseInt(UpstreamId(id)).value, e)
  {
    match ParseInt(UpstreamId(id))
    case Some(n) => if n >= 0 then Some(MapTodoToTask(todo, n, e)) else None
    case None => None
  }

  /** Updating "task-<n>" maps the response with index n, the same index a
      numeric id n gives. */
  lemma {:induction false} UpdateIndexFromLocalId(n: nat, todo: UpstreamTodo, e: Enrichment)
    ensures MapUpdateResponse(StrId(LocalIdPrefix + IntToString(n)), todo, e) == Some(MapTodoToTask(todo, n, e))
    ensures MapUpdateResponse(NumId(n), todo, e) == Some(MapTodoToTask(todo, n, e))
  {
    ReplaceLeadingPattern(LocalIdPrefix, IntToString(n));
    IntRoundTrip(n);
  }

  /** A record that createTask or getTask mapped is mapped the same way when
      updateTask later receives it back under the task's own id, numeric or
      local: both paths pick status, priority and tags by the record's id. */
  lemma {:induction false} ResponseMappingsAgree(todo: UpstreamTodo, e: Enrichment)
    ensures todo.id >= 0 ==> MapUpdateResponse(NumId(todo.id), todo, e) == MapResponse(todo, e)
    ensures todo.id > 0 ==> MapUpdateResponse(StrId(MapResponse(todo, e).value.id), todo, e) == MapResponse(todo, e)
  {
    if todo.id >= 0 {
      UpdateIndexFromLocalId(todo.id, todo, e);
    }
  }

  /** "task-" alone leaves a blank upstream id, which `Number()` reads as
      0, so the response is mapped with index 0. */
  lemma UpdateIndexFromBlankLocalId(todo: UpstreamTodo, e: Enrichment)
    ensures MapUpdateResponse(StrId(LocalIdPrefix), todo, e) == Some(MapTodoToTask(todo, 0, e))
  {
    LocalIdLosesPrefix("");
    assert LocalIdPrefix + "" == LocalIdPrefix;
    assert Trim("") == "";
  }

  /** White space between the prefix and the number is ignored by
      `Number()`, so "task- <n>" maps with index n. */
  lemma UpdateIndexFromSpacedLocalId(n: nat, todo: UpstreamTodo, e: Enrichment)
    ensures MapUpdateResponse(StrId(LocalIdPrefix + " " + NatToString(n)), todo, e) == Some(MapTodoToTask(todo, n, e))
  {
    var digits := NatToString(n);
    assert UpstreamId(StrId(LocalIdPrefix + " " + digits)) == " " + digits by {
      LocalIdLosesPrefix(" " + digits);
      AppendAssoc(LocalIdPrefix, " ", digits);
    }
    assert ParseInt(" " + digits) == Some(n) by {
      LeadingSpaceIgnored(digits, ' ');
      ParseIntBasics(digits);
      DecimalRoundTrip(n);
    }
  }

  /** If upstream echoes the completed flag it was sent, the re-mapped
      task is done exactly when the patch asked for done. */
  lemma DoneSurvivesUpdate(id: TaskId, updates: TaskPatch, todo: UpstreamTodo, e: Enrichment)
    requires todo.completed == UpdateTaskRequest(id, updates).body.value.completed
    requires MapUpdateResponse(id, todo, e).Some?
    ensures MapUpdateResponse(id, todo, e).value.status == Done <==> updates.status == Some(Done)
  {
  }
}
