/** The entities of the task board (types/index.ts). Timestamps are the
    millisecond instants that `new Date(...).getTime()` yields, since the
    core only ever compares those. */
module Types {

  datatype Option<+T> = None | Some(value: T)

  /** TaskStatus: exactly one of four. */
  datatype Status = Todo | InProgress | NeedReview | Done

  /** TaskPriority: exactly one of four. */
  datatype Priority = Low | Medium | High | Urgent

  /** The string codes the TypeScript union types use. */
  function StatusCode(s: Status): string
  {
    match s
    case Todo => "todo"
    case InProgress => "in_progress"
    case NeedReview => "need_review"
    case Done => "done"
  }

  function PriorityCode(p: Priority): string
  {
    match p
    case Low => "low"
    case Medium => "medium"
    case High => "high"
    case Urgent => "urgent"
  }

  /** Distinct statuses have distinct codes, so a record keyed by code
      (the label tables, the list view's groups) has one entry per status. */
  lemma StatusCodeInjective(s: Status, t: Status)
    ensures StatusCode(s) == StatusCode(t) <==> s == t
  {
  }

  lemma PriorityCodeInjective(p: Priority, q: Priority)
    ensures PriorityCode(p) == PriorityCode(q) <==> p == q
  {
  }

  datatype Checklist = Checklist(id: string, title: string, completed: int, total: int)

  datatype Assignee = Assignee(id: string, name: string, avatar: string, email: string)

  datatype Comment = Comment(id: string, author: Assignee, content: string, createdAt: int)

  datatype Task = Task(
    id: string,
    title: string,
    description: string,
    status: Status,
    priority: Priority,
    dueDate: int,
    createdAt: int,
    updatedAt: int,
    assignees: seq<Assignee>,
    checklists: seq<Checklist>,
    comments: seq<Comment>,
    attachments: int,
    tags: seq<string>)

  /** FilterOptions: every field optional. `None` stands both for a key
      that is absent and for a key present with value `undefined`; the
      filter cannot tell the two apart because it tests truthiness only. */
  datatype FilterOptions = FilterOptions(
    status: Option<seq<Status>>,
    priority: Option<seq<Priority>>,
    assignee: Option<string>,
    search: Option<string>)

  /** The empty record `{}`. */
  const NoFilters := FilterOptions(None, None, None, None)

  datatype SortField = DueDate | CreatedAt | PriorityField

  datatype Direction = Asc | Desc

  datatype SortOptions = SortOptions(field: SortField, direction: Direction)
}
