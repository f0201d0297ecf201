/** The task store (store/taskStore.ts): the list of tasks, the derived
    filtered-and-sorted view, the current criteria, the selection, and
    the loading and error flags. Each asynchronous action is one atomic
    step that receives the outcome of its upstream call as a parameter. */
module TaskStore {
  import opened Types
  import opened Seqs
  import opened TaskFilter
  import opened TaskSort

  /** What a failed call threw: an Error carries its message; anything
      else is reported with the action's fallback message. */
  datatype Thrown = ErrorInstance(message: string) | NonError

  /** The outcome of an upstream call. */
  datatype Outcome<T> = Success(value: T) | Failure(thrown: Thrown)

  /** The message a catch block stores: an Error's own message, even an
      empty one, and the action's fallback for anything else. */
  function ErrorMessage(thrown: Thrown, fallback: string): (r: string)
    ensures thrown.ErrorInstance? ==> r == thrown.message
    ensures thrown.NonError? ==> r == fallback
  {
    match thrown
    case ErrorInstance(m) => m
    case NonError => fallback
  }

  const FetchFallback := "Failed to fetch tasks"
  const CreateFallback := "Failed to create task"
  const UpdateFallback := "Failed to update task"
  const DeleteFallback := "Failed to delete task"

  /** The criteria the store starts with and returns to on clearFilters. */
  const InitialSort := SortOptions(DueDate, Asc)
  const InitialFilters := NoFilters

  /** The view the store keeps: the filtered tasks, sorted. */
  function View(ts: seq<Task>, f: FilterOptions, o: SortOptions): seq<Task>
  {
    SortTasks(FilterTasks(ts, f), o)
  }

  /** A task is shown exactly when it is in the list and matches the
      filter; it is shown as often as it occurs in the list, the view is
      ordered by the sort key and ties keep their list order. */
  lemma ViewContents(ts: seq<Task>, f: FilterOptions, o: SortOptions)
    ensures forall t :: t in View(ts, f, o) <==> t in ts && Matches(t, f)
    ensures forall t :: multiset(View(ts, f, o))[t] == if Matches(t, f) then multiset(ts)[t] else 0
    ensures Sorted(View(ts, f, o), o)
    ensures Stable(View(ts, f, o), FilterTasks(ts, f), o.field)
  {
    SortTasksCorrect(FilterTasks(ts, f), o);
    forall t ensures multiset(View(ts, f, o))[t] == if Matches(t, f) then multiset(ts)[t] else 0 {
      FilterMultiplicity(ts, f, t);
    }
  }

  /** A shallow-merge patch for setFilters: per key, None when the key is
      absent from the patch, Some(None) when it is present as `undefined`,
      Some(Some(v)) when it is set to v. */
  datatype FilterPatch = FilterPatch(
    status: Option<Option<seq<Status>>>,
    priority: Option<Option<seq<Priority>>>,
    assignee: Option<Option<string>>,
    search: Option<Option<string>>)

  const EmptyPatch := FilterPatch(None, None, None, None)

  function MergeField<T>(current: Option<T>, patch: Option<Option<T>>): Option<T>
  {
    match patch
    case None => current
    case Some(v) => v
  }

  /** `{ ...filters, ...patch }`: keys absent from the patch keep their
      value, every key the patch carries (even as `undefined`) overwrites. */
  function MergeFilters(f: FilterOptions, p: FilterPatch): (r: FilterOptions)
    ensures p.status.None? ==> r.status == f.status
    ensures p.status.Some? ==> r.status == p.status.value
    ensures p.priority.None? ==> r.priority == f.priority
    ensures p.priority.Some? ==> r.priority == p.priority.value
    ensures p.assignee.None? ==> r.assignee == f.assignee
    ensures p.assignee.Some? ==> r.assignee == p.assignee.value
    ensures p.search.None? ==> r.search == f.search
    ensures p.search.Some? ==> r.search == p.search.value
  {
    FilterOptions(
      MergeField(f.status, p.status),
      MergeField(f.priority, p.priority),
      MergeField(f.assignee, p.assignee),
      MergeField(f.search, p.search))
  }

  /** The patch that replaces every key with the value it has in `f`. */
  function PatchOf(f: FilterOptions): FilterPatch
  {
    FilterPatch(Some(f.status), Some(f.priority), Some(f.assignee), Some(f.search))
  }

  /** Merging two patches one after the other is merging their
      combination, in which the later patch wins key by key. */
  function Then(p: FilterPatch, q: FilterPatch): FilterPatch
  {
    FilterPatch(
      if q.status.Some? then q.status else p.status,
      if q.priority.Some? then q.priority else p.priority,
      if q.assignee.Some? then q.assignee else p.assignee,
      if q.search.Some? then q.search else p.search)
  }

  /** The merge laws: the empty patch changes nothing, applying a patch
      twice is applying it once, consecutive patches combine, and a patch
      that carries every key replaces the whole record. */
  lemma MergeLaws(f: FilterOptions, p: FilterPatch, q: FilterPatch, g: FilterOptions)
    ensures MergeFilters(f, EmptyPatch) == f
    ensures MergeFilters(MergeFilters(f, p), p) == MergeFilters(f, p)
    ensures MergeFilters(MergeFilters(f, p), q) == MergeFilters(f, Then(p, q))
    ensures MergeFilters(f, PatchOf(g)) == g
  {
  }

  /** A patch that sets a key to `undefined` clears it, so the filter no
      longer consults it: a present-as-undefined status key removes the
      status criterion. */
  lemma UndefinedStatusClears(ts: seq<Task>, f: FilterOptions)
    requires f.priority.None? && (f.search.None? || f.search.value == "")
    ensures FilterTasks(ts, MergeFilters(f, FilterPatch(Some(None), None, None, None))) == ts
  {
    FilterWithoutCriteria(ts, MergeFilters(f, FilterPatch(Some(None), None, None, None)));
  }

  /** `tasks.map(task => task.id === id ? updated : task)`. */
  function ReplaceById(ts: seq<Task>, id: string, u: Task): (r: seq<Task>)
    ensures |r| == |ts|
    ensures forall i :: 0 <= i < |ts| ==> r[i] == if ts[i].id == id then u else ts[i]
  {
    if ts == [] then []
    else [if ts[0].id == id then u else ts[0]] + ReplaceById(ts[1..], id, u)
  }

  /** Replacing by an id nobody has changes nothing; after a replacement
      every element carrying the id is the replacement, and one whose id
      is kept is the replacement only if it already was. */
  lemma ReplaceByIdLaws(ts: seq<Task>, id: string, u: Task)
    ensures (forall t :: t in ts ==> t.id != id) ==> ReplaceById(ts, id, u) == ts
    ensures u.id == id ==> forall t :: t in ReplaceById(ts, id, u) && t.id == id ==> t == u
    ensures u.id == id ==> ReplaceById(ReplaceById(ts, id, u), id, u) == ReplaceById(ts, id, u)
  {
    var r := ReplaceById(ts, id, u);
    if forall t :: t in ts ==> t.id != id {
      assert forall i :: 0 <= i < |ts| ==> r[i] == ts[i];
    }
  }

  /** `tasks.filter(task => task.id !== id)`. */
  function RemoveById(ts: seq<Task>, id: string): (r: seq<Task>)
    ensures |r| <= |ts|
    ensures forall t :: t in r <==> t in ts && t.id != id
  {
    if ts == [] then []
    else (if ts[0].id != id then [ts[0]] else []) + RemoveById(ts[1..], id)
  }

  /** Removal keeps the other tasks in order. */
  lemma {:induction false} RemoveIsSubsequence(ts: seq<Task>, id: string)
    ensures IsSubsequence(RemoveById(ts, id), ts)
    decreases |ts|
  {
    if ts != [] {
      RemoveIsSubsequence(ts[1..], id);
      var rest := RemoveById(ts[1..], id);
      if ts[0].id != id {
        assert RemoveById(ts, id) == [ts[0]] + rest;
        assert ([ts[0]] + rest)[1..] == rest;
      } else {
        assert RemoveById(ts, id) == rest;
      }
    }
  }

  /** Every task with another id is kept as often as it occurred. */
  lemma {:induction false} RemoveMultiplicity(ts: seq<Task>, id: string, t: Task)
    requires t.id != id
    ensures multiset(RemoveById(ts, id))[t] == multiset(ts)[t]
    decreases |ts|
  {
    if ts != [] {
      RemoveMultiplicity(ts[1..], id, t);
      assert ts == [ts[0]] + ts[1..];
    }
  }

  /** Removing an id nobody has changes nothing. */
  lemma {:induction false} RemoveAbsentId(ts: seq<Task>, id: string)
    requires forall t :: t in ts ==> t.id != id
    ensures RemoveById(ts, id) == ts
    decreases |ts|
  {
    if ts != [] {
      RemoveAbsentId(ts[1..], id);
      assert ts == [ts[0]] + ts[1..];
    }
  }

  /** `tasks.find(t => t.id === id)`: the first task with that id. */
  function FindById(ts: seq<Task>, id: string): (r: Option<Task>)
    ensures r.Some? ==> r.value in ts && r.value.id == id
    ensures r.None? <==> forall t :: t in ts ==> t.id != id
  {
    if ts == [] then None
    else if ts[0].id == id then Some(ts[0])
    else FindById(ts[1..], id)
  }

  /** The task found is the first one carrying the id. */
  lemma {:induction false} FindByIdFirst(ts: seq<Task>, id: string)
    requires FindById(ts, id).Some?
    ensures exists i :: 0 <= i < |ts| && ts[i] == FindById(ts, id).value &&
                        forall j :: 0 <= j < i ==> ts[j].id != id
    decreases |ts|
  {
    if ts[0].id != id {
      FindByIdFirst(ts[1..], id);
      var i :| 0 <= i < |ts[1..]| && ts[1..][i] == FindById(ts[1..], id).value
        && forall j :: 0 <= j < i ==> ts[1..][j].id != id;
      assert ts[i + 1] == FindById(ts, id).value;
      assert forall j :: 0 <= j < i + 1 ==> ts[j].id != id by {
        forall j | 0 <= j < i + 1 ensures ts[j].id != id {
          if j > 0 { assert ts[j] == ts[1..][j - 1]; }
        }
      }
    } else {
      assert ts[0] == FindById(ts, id).value;
    }
  }

  class Store {
    var tasks: seq<Task>
    var loading: bool
    var error: Option<string>
    var filteredTasks: seq<Task>
    var selectedTask: Option<Task>
    var filters: FilterOptions
    var sort: SortOptions

    /** The derived view is always the filtered and sorted list. */
    ghost predicate Valid()
      reads this
    {
      filteredTasks == View(tasks, filters, sort)
    }

    /** The initial state: nothing loaded, no error, no criteria, sorted
      by due date ascending. */
    constructor()
      ensures Valid()
      ensures tasks == [] && filteredTasks == [] && selectedTask.None?
      ensures !loading && error.None?
      ensures filters == InitialFilters && sort == InitialSort
    {
      tasks := [];
      loading := false;
      error := None;
      filteredTasks := [];
      selectedTask := None;
      filters := InitialFilters;
      sort := InitialSort;
    }

    /** Recomputes the view from the list and the current criteria. */
    method ApplyFiltersAndSort()
      modifies this
      ensures Valid()
      ensures tasks == old(tasks) && filters == old(filters) && sort == old(sort)
      ensures loading == old(loading) && error == old(error) && selectedTask == old(selectedTask)
    {
      var filtered := FilterTasks(tasks, filters);
      filtered := SortCopy(filtered, sort);
      filteredTasks := filtered;
    }

    /** fetchTasks: on success the list is replaced and the error cleared;
      on failure the list and view stay and the error is set; either way
      loading ends false. */
    method FetchTasks(outcome: Outcome<seq<Task>>)
      requires Valid()
      modifies this
      ensures Valid() && !loading
      ensures filters == old(filters) && sort == old(sort) && selectedTask == old(selectedTask)
      ensures outcome.Success? ==> tasks == outcome.value && error.None?
      ensures outcome.Failure? ==> tasks == old(tasks) && filteredTasks == old(filteredTasks)
      ensures outcome.Failure? ==> error == Some(ErrorMessage(outcome.thrown, FetchFallback))
    {
      loading := true;
      error := None;
      match outcome {
        case Success(fetched) =>
          tasks := fetched;
          ApplyFiltersAndSort();
        case Failure(thrown) =>
          error := Some(ErrorMessage(thrown, FetchFallback));
      }
      loading := false;
    }

    /** createTask: on success the new task is prepended and shown exactly
      when it matches the filter; on failure only the error changes. */
    method CreateTask(outcome: Outcome<Task>)
      requires Valid()
      modifies this
      ensures Valid()
      ensures filters == old(filters) && sort == old(sort)
      ensures loading == old(loading) && selectedTask == old(selectedTask)
      ensures outcome.Success? ==> tasks == [outcome.value] + old(tasks) && error.None?
      ensures outcome.Success? ==> (outcome.value in filteredTasks <==> Matches(outcome.value, filters))
      ensures outcome.Failure? ==> tasks == old(tasks) && filteredTasks == old(filteredTasks)
      ensures outcome.Failure? ==> error == Some(ErrorMessage(outcome.thrown, CreateFallback))
    {
      error := None;
      match outcome
      case Success(created) =>
        tasks := [created] + tasks;
        ApplyFiltersAndSort();
        ViewContents(tasks, filters, sort);
      case Failure(thrown) =>
        error := Some(ErrorMessage(thrown, CreateFallback));
    }

    /** updateTask: on success every task with the id is replaced in
      place, and a selected task with the id becomes the updated one; on
      failure only the error changes. */
    method UpdateTask(id: string, outcome: Outcome<Task>)
      requires Valid()
      modifies this
      ensures Valid()
      ensures filters == old(filters) && sort == old(sort) && loading == old(loading)
      ensures outcome.Success? ==> tasks == ReplaceById(old(tasks), id, outcome.value) && error.None?
      ensures outcome.Success? && old(selectedTask).Some? && old(selectedTask).value.id == id ==>
                selectedTask == Some(outcome.value)
      ensures outcome.Success? && !(old(selectedTask).Some? && old(selectedTask).value.id == id) ==>
                selectedTask == old(selectedTask)
      ensures outcome.Failure? ==> tasks == old(tasks) && filteredTasks == old(filteredTasks)
      ensures outcome.Failure? ==> selectedTask == old(selectedTask)
      ensures outcome.Failure? ==> error == Some(ErrorMessage(outcome.thrown, UpdateFallback))
    {
      error := None;
      match outcome
      case Success(updated) =>
        tasks := ReplaceById(tasks, id, updated);
        ApplyFiltersAndSort();
        if selectedTask.Some? && selectedTask.value.id == id {
          selectedTask := Some(updated);
        }
      case Failure(thrown) =>
        error := Some(ErrorMessage(thrown, UpdateFallback));
    }

    /** deleteTask: on success every task with the id leaves the list and
      the view, and a selected task with the id is deselected; on failure
      only the error changes. */
    method DeleteTask(id: string, outcome: Outcome<()>)
      requires Valid()
      modifies this
      ensures Valid()
      ensures filters == old(filters) && sort == old(sort) && loading == old(loading)
      ensures outcome.Success? ==> tasks == RemoveById(old(tasks), id) && error.None?
      ensures outcome.Success? ==> forall t :: t in filteredTasks ==> t.id != id
      ensures outcome.Success? && old(selectedTask).Some? && old(selectedTask).value.id == id ==>
                selectedTask.None?
      ensures outcome.Success? && !(old(selectedTask).Some? && old(selectedTask).value.id == id) ==>
                selectedTask == old(selectedTask)
      ensures outcome.Failure? ==> tasks == old(tasks) && filteredTasks == old(filteredTasks)
      ensures outcome.Failure? ==> selectedTask == old(selectedTask)
      ensures outcome.Failure? ==> error == Some(ErrorMessage(outcome.thrown, DeleteFallback))
    {
      error := None;
      match outcome
      case Success(_) =>
        tasks := RemoveById(tasks, id);
        if selectedTask.Some? && selectedTask.value.id == id {
          selectedTask := None;
        }
        ApplyFiltersAndSort();
        ViewContents(tasks, filters, sort);
      case Failure(thrown) =>
        error := Some(ErrorMessage(thrown, DeleteFallback));
    }

    /** setFilters: shallow merge, then recompute the view. */
    method SetFilters(patch: FilterPatch)
      requires Valid()
      modifies this
      ensures Valid()
      ensures filters == MergeFilters(old(filters), patch)
      ensures tasks == old(tasks) && sort == old(sort)
      ensures loading == old(loading) && error == old(error) && selectedTask == old(selectedTask)
    {
      filters := MergeFilters(filters, patch);
      ApplyFiltersAndSort();
    }

    /** setSort: replaces the sort wholesale, then recomputes the view. */
    method SetSort(newSort: SortOptions)
      requires Valid()
      modifies this
      ensures Valid()
      ensures sort == newSort
      ensures tasks == old(tasks) && filters == old(filters)
      ensures loading == old(loading) && error == old(error) && selectedTask == old(selectedTask)
    {
      sort := newSort;
      ApplyFiltersAndSort();
    }

    method SetSelectedTask(task: Option<Task>)
      requires Valid()
      modifies this
      ensures Valid()
      ensures selectedTask == task
      ensures tasks == old(tasks) && filteredTasks == old(filteredTasks)
      ensures filters == old(filters) && sort == old(sort)
      ensures loading == old(loading) && error == old(error)
    {
      selectedTask := task;
    }

    /** selectTaskById: selects the first task with the id, or nothing. */
    method SelectTaskById(id: string)
      requires Valid()
      modifies this
      ensures Valid()
      ensures selectedTask == FindById(tasks, id)
      ensures tasks == old(tasks) && filteredTasks == old(filteredTasks)
      ensures filters == old(filters) && sort == old(sort)
      ensures loading == old(loading) && error == old(error)
    {
      selectedTask := FindById(tasks, id);
    }

    /** clearFilters: back to no criteria and the initial sort; the view
      then holds every task. */
    method ClearFilters()
      requires Valid()
      modifies this
      ensures Valid()
      ensures filters == InitialFilters && sort == InitialSort
      ensures multiset(filteredTasks) == multiset(tasks)
      ensures tasks == old(tasks)
      ensures loading == old(loading) && error == old(error) && selectedTask == old(selectedTask)
    {
      filters := InitialFilters;
      sort := InitialSort;
      ApplyFiltersAndSort();
      FilterWithoutCriteria(tasks, filters);
      SortTasksCorrect(tasks, sort);
    }
  }
}
