/** Concrete cases of the model on the task lists the repository's own
    test suites use, stated as lemmas about the specification functions
    and as methods that drive a store through a sequence of actions. */
module Scenarios {
  import opened Types
  import opened Text
  import opened TaskFilter
  import opened TaskSort
  import opened TaskGateway
  import opened TaskStore
  import opened Seqs

  /** Midnight UTC of the dates the tests use, in milliseconds. */
  const Feb01 := 1769904000000
  const Feb02 := 1769990400000
  const Feb03 := 1770076800000
  const Mar01 := 1772323200000
  const Mar05 := 1772668800000
  const Mar10 := 1773100800000

  function Sample(id: string, title: string, status: Status, priority: Priority, due: int, created: int): Task
  {
    Task(id, title, "", status, priority, due, created, created, [], [], [], 0, [])
  }

  /** The three tasks of the filter tests. */
  const Design := Sample("task-1", "Design UI", Todo, High, Mar01, Feb01)
  const Tests := Sample("task-2", "Write tests", InProgress, Medium, Mar05, Feb02)
  const Deploy := Sample("task-3", "Deploy app", Done, Low, Mar10, Feb03)

  /** One step of the filter: the head is kept or dropped, then the rest. */
  lemma FilterCons(t: Task, ts: seq<Task>, f: FilterOptions)
    ensures FilterTasks([t] + ts, f) == (if Matches(t, f) then [t] else []) + FilterTasks(ts, f)
  {
    assert ([t] + ts)[1..] == ts;
  }

  /** A three-element literal, taken apart one head at a time. */
  lemma ThreeAsCons<T>(x: T, y: T, z: T)
    ensures [x, y, z] == [x] + [y, z] && [y, z] == [y] + [z] && [z] == [z] + []
  {
  }

  /** Filtering three tasks keeps each one that matches, in order. */
  lemma FilterThree(x: Task, y: Task, z: Task, f: FilterOptions)
    ensures FilterTasks([x, y, z], f)
      == (if Matches(x, f) then [x] else []) + (if Matches(y, f) then [y] else []) + (if Matches(z, f) then [z] else [])
  {
    var hx := if Matches(x, f) then [x] else [];
    var hy := if Matches(y, f) then [y] else [];
    var hz := if Matches(z, f) then [z] else [];
    ThreeAsCons(x, y, z);
    FilterCons(z, [], f);
    assert FilterTasks([z], f) == hz;
    FilterCons(y, [z], f);
    assert FilterTasks([y, z], f) == hy + hz;
    FilterCons(x, [y, z], f);
    AppendAssoc(hx, hy, hz);
  }

  lemma NoFilterExample()
    ensures FilterTasks([Design, Tests, Deploy], NoFilters) == [Design, Tests, Deploy]
  {
    FilterWithoutCriteria([Design, Tests, Deploy], NoFilters);
  }

  lemma StatusFilterExample()
    ensures FilterTasks([Design, Tests, Deploy], StatusOnly([Todo])) == [Design]
  {
    FilterThree(Design, Tests, Deploy, StatusOnly([Todo]));
  }

  lemma StatusesFilterExample()
    ensures FilterTasks([Design, Tests, Deploy], StatusOnly([Todo, Done])) == [Design, Deploy]
  {
    FilterThree(Design, Tests, Deploy, StatusOnly([Todo, Done]));
  }

  lemma PriorityFilterExample()
    ensures FilterTasks([Design, Tests, Deploy], PriorityOnly([High])) == [Design]
  {
    FilterThree(Design, Tests, Deploy, PriorityOnly([High]));
  }

  lemma LowerTitles()
    ensures Lower("Design UI") == "design ui"
    ensures Lower("Write tests") == "write tests"
    ensures Lower("Deploy app") == "deploy app"
    ensures Lower("deploy") == "deploy"
  {
  }

  lemma DeployMatches()
    ensures Contains(Lower(Deploy.title), Lower("deploy"))
  {
    LowerTitles();
    assert OccursAt("deploy app", "deploy", 0);
  }

  /** A pattern is absent when, at every place it could start, one fixed
      position of it disagrees with the text. */
  lemma MismatchAt(s: string, p: string, j: nat)
    requires j < |p|
    requires forall k :: j <= k && k - j + |p| <= |s| ==> s[k] != p[j]
    ensures !Contains(s, p)
  {
    forall i | 0 <= i
      ensures !OccursAt(s, p, i)
    {
      if i + |p| <= |s| {
        assert s[i..i + |p|][j] == s[i + j];
      }
    }
  }

  lemma DesignDoesNotMatch()
    ensures !Contains(Lower(Design.title), Lower("deploy"))
  {
    LowerTitles();
    MismatchAt("design ui", "deploy", 2);
  }

  lemma TestsDoesNotMatch()
    ensures !Contains(Lower(Tests.title), Lower("deploy"))
  {
    LowerTitles();
    MismatchAt("write tests", "deploy", 0);
  }

  /** The search "deploy" finds "Deploy app" whatever the case. */
  lemma SearchExample()
    ensures FilterTasks([Design, Tests, Deploy], SearchOnly("deploy")) == [Deploy]
  {
    DeployMatches();
    DesignDoesNotMatch();
    TestsDoesNotMatch();
    FilterThree(Design, Tests, Deploy, SearchOnly("deploy"));
  }

  /** A term longer than every title finds nothing. */
  lemma NoMatchExample()
    ensures FilterTasks([Design, Tests, Deploy], SearchOnly("nonexistent")) == []
  {
    LowerTitles();
    assert Lower("nonexistent") == "nonexistent";
    MismatchAt("design ui", "nonexistent", 0);
    MismatchAt("write tests", "nonexistent", 0);
    MismatchAt("deploy app", "nonexistent", 0);
    FilterThree(Design, Tests, Deploy, SearchOnly("nonexistent"));
  }

  /** The three tasks of the sort tests. */
  const A := Sample("task-1", "A", Todo, Low, Mar10, Feb03)
  const B := Sample("task-2", "B", InProgress, Urgent, Mar01, Feb01)
  const C := Sample("task-3", "C", Done, High, Mar05, Feb02)

  /** Sorting three tasks: the first, then the second and third inserted
      in turn. */
  lemma SortThree(x: Task, y: Task, z: Task, o: SortOptions)
    ensures SortTasks([x, y, z], o) == Insert(Insert([x], y, o), z, o)
  {
    assert [x, y, z][..2] == [x, y] && [x, y, z][2] == z;
    assert [x, y][..1] == [x] && [x, y][1] == y;
    assert [x][..0] == [] && [x][0] == x;
    assert SortTasks([x], o) == Insert([], x, o) == [x];
    assert SortTasks([x, y], o) == Insert([x], y, o);
  }

  /** Inserting behind one task or in front of it. */
  lemma InsertAfterOne(x: Task, y: Task, o: SortOptions)
    ensures Insert([x], y, o) == if Compare(x, y, o) <= 0 then [x, y] else [y, x]
  {
    assert [x][..0] == [];
  }

  lemma InsertAfterTwo(x: Task, y: Task, z: Task, o: SortOptions)
    requires Compare(x, z, o) <= 0 && Compare(y, z, o) > 0
    ensures Insert([x, y], z, o) == [x, z, y]
  {
    assert [x, y][..1] == [x];
    InsertAfterOne(x, z, o);
  }

  /** Due date ascending puts B (March 1) first and A (March 10) last. */
  lemma DueDateAscExample()
    ensures SortTasks([A, B, C], SortOptions(DueDate, Asc)) == [B, C, A]
  {
    var o := SortOptions(DueDate, Asc);
    SortThree(A, B, C, o);
    InsertAfterOne(A, B, o);
    InsertAfterTwo(B, A, C, o);
  }

  lemma DueDateDescExample()
    ensures SortTasks([A, B, C], SortOptions(DueDate, Desc)) == [A, C, B]
  {
    var o := SortOptions(DueDate, Desc);
    SortThree(A, B, C, o);
    InsertAfterOne(A, B, o);
    InsertAfterTwo(A, B, C, o);
  }

  /** Priority ascending puts the urgent task first and the low one last. */
  lemma PriorityAscExample()
    ensures SortTasks([A, B, C], SortOptions(PriorityField, Asc)) == [B, C, A]
  {
    var o := SortOptions(PriorityField, Asc);
    SortThree(A, B, C, o);
    InsertAfterOne(A, B, o);
    InsertAfterTwo(B, A, C, o);
  }

  lemma CreatedAscExample()
    ensures SortTasks([A, B, C], SortOptions(CreatedAt, Asc)) == [B, C, A]
  {
    var o := SortOptions(CreatedAt, Asc);
    SortThree(A, B, C, o);
    InsertAfterOne(A, B, o);
    InsertAfterTwo(B, A, C, o);
  }

  /** The path of record 5, spelled out. */
  lemma RecordFivePath()
    ensures BaseUrl + "/" + "5" == "/todos/5"
  {
    var path := BaseUrl + "/" + "5";
    assert |path| == 8;
    forall i | 0 <= i < 8
      ensures path[i] == "/todos/5"[i]
    {
    }
  }

  /** The ids of the deletion tests: "task-5" and 5 both target /todos/5. */
  lemma DeletePathExamples()
    ensures DeleteTaskRequest(StrId("task-5")).path == "/todos/5"
    ensures DeleteTaskRequest(NumId(5)).path == "/todos/5"
  {
    RecordFivePath();
    assert UpstreamId(NumId(5)) == "5" by {
      assert NatToString(5) == "5";
    }
    LocalFiveUpstream();
  }

  /** "task-5" reaches upstream as "5". */
  lemma LocalFiveUpstream()
    ensures UpstreamId(StrId("task-5")) == "5"
  {
    LocalIdLosesPrefix("5");
    assert "task-5" == LocalIdPrefix + "5";
  }

  /** The two records of the list test map to an open task titled "Buy
      groceries" and a done task. */
  lemma MappingExample(draws: nat -> Enrichment)
    ensures var tasks := MapTodosToTasks([UpstreamTodo(1, "Buy groceries", false, 1), UpstreamTodo(2, "Walk the dog", true, 1)], draws);
      && |tasks| == 2 && tasks[0].title == "Buy groceries" && tasks[0].id == "task-1"
      && tasks[0].status == InProgress && tasks[1].status == Done
  {
    var todos := [UpstreamTodo(1, "Buy groceries", false, 1), UpstreamTodo(2, "Walk the dog", true, 1)];
    assert MapTodosToTasks(todos, draws)[0] == MapTodoToTask(todos[0], 1, draws(0));
    assert MapTodosToTasks(todos, draws)[1] == MapTodoToTask(todos[1], 2, draws(1));
    assert IntToString(1) == "1";
  }

  /** The two tasks of the store tests. */
  const First := Sample("task-1", "Task 1", Todo, High, Mar01, Feb01)
  const Second := Sample("task-2", "Task 2", Done, Low, Mar05, Feb02)

  /** Fetching stores the list and ends with no error and loading off; a
      failed fetch keeps the list and reports the error's message. */
  method FetchScenario() returns (fetched: seq<Task>, failedError: Option<string>, failedTasks: seq<Task>, loading: bool)
    ensures fetched == [First, Second]
    ensures failedError == Some("Network error") && failedTasks == [First, Second] && !loading
  {
    var store := new Store();
    store.FetchTasks(Success([First, Second]));
    fetched := store.tasks;
    store.FetchTasks(Failure(ErrorInstance("Network error")));
    failedError := store.error;
    failedTasks := store.tasks;
    loading := store.loading;
  }

  /** A created task goes to the front; deleting "task-1" leaves only the
      second task and clears a selection of the first. */
  method CreateDeleteScenario() returns (afterCreate: seq<Task>, afterDelete: seq<Task>, selected: Option<Task>)
    ensures afterCreate == [First, Second] && |afterCreate| == 2
    ensures afterDelete == [Second] && selected.None?
  {
    var store := new Store();
    store.CreateTask(Success(Second));
    store.CreateTask(Success(First));
    afterCreate := store.tasks;
    store.SelectTaskById("task-1");
    store.DeleteTask("task-1", Success(()));
    afterDelete := store.tasks;
    selected := store.selectedTask;
  }

  /** Merging `{search}` and then `{status}` keeps both; clearing goes
      back to no criteria and due date ascending; a patch that carries
      `status: undefined` clears the status criterion. */
  method FilterScenario() returns (merged: FilterOptions, cleared: FilterOptions, clearedSort: SortOptions, presetCleared: FilterOptions)
    ensures merged.search == Some("test") && merged.status == Some([Todo])
    ensures cleared == NoFilters && clearedSort == SortOptions(DueDate, Asc)
    ensures presetCleared.status.None? && presetCleared.priority == Some([Urgent])
  {
    var store := new Store();
    store.SetFilters(FilterPatch(None, None, None, Some(Some("test"))));
    store.SetFilters(FilterPatch(Some(Some([Todo])), None, None, None));
    merged := store.filters;
    store.ClearFilters();
    cleared := store.filters;
    clearedSort := store.sort;
    store.SetFilters(FilterPatch(Some(Some([Todo])), None, None, None));
    store.SetFilters(FilterPatch(Some(None), Some(Some([Urgent])), None, None));
    presetCleared := store.filters;
  }

  /** Selecting by id finds the task or nothing. */
  method SelectScenario() returns (found: Option<Task>, missing: Option<Task>)
    ensures found == Some(Second) && missing.None?
  {
    var store := new Store();
    store.FetchTasks(Success([First, Second]));
    store.SelectTaskById("task-2");
    found := store.selectedTask;
    store.SelectTaskById("nonexistent");
    missing := store.selectedTask;
  }
}
