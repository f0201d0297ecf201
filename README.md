# Task manager core, modelled in Dafny

This project models the logic of a Kanban-style task manager written in
TypeScript. The app fetches its tasks from a DummyJSON-style `/todos`
endpoint, turns each upstream todo into a `Task`, and keeps everything in
one store. The store holds the list, the filter and sort criteria, the
currently selected task, a loading flag and an error message.

The model covers the following parts of the app:

- **The task service** (`lib/api/taskService.ts`):
  - `filterTasks`: a stable filter by status list, priority list and a
    case-insensitive title search.
  - `sortTasks`: copies the list, then sorts the copy in place by due date,
    creation time or priority rank, in either direction.
  - Request paths and bodies for get, getTask, create, update and delete,
    including how ids are turned into upstream ids.
  - The deterministic part of `mapTodoToTask`, and `mapTodosToTasks`.
- **The store** (`store/taskStore.ts`): a class whose actions update its
  fields in place.
  - The network result each async action awaits is a parameter: success
    with a value, or failure with what was thrown.
  - Every action keeps the invariant `filteredTasks == sortTasks(filterTasks(tasks, filters), sort)`.
- **Labels** (`lib/utils.ts`): the priority and status label tables, each
  falling back to the key itself.
- **The header** (`components/layout/Header.tsx`): the rule that flips the
  sort direction when a sort field is clicked.
- **The board** (`components/tasks/KanbanBoard.tsx`):
  - the `reduce` that builds one column per status, and each column's count;
  - render precedence: loading, then error, then the board.
- **The list view** (`components/tasks/ListView.tsx`):
  - the `forEach` loop that buckets tasks by status;
  - the priority badge and its fallback;
  - hiding empty groups;
  - render precedence, and the "No tasks found" notice.

## Modules

| file | module | models |
|---|---|---|
| `types.dfy` | `Types` | Task, its sub-records, status and priority codes, filter and sort options |
| `text.dfy` | `Text` | ASCII `toLowerCase`, `includes`, first-occurrence `replace`, decimal rendering of numbers, and `Number()` on signed decimal integers with white space around them |
| `seqs.dfy` | `Seqs` | order-preserving subsequences and small sequence facts |
| `task_filter.dfy` | `TaskFilter` | `filterTasks` and the per-status selection the views use |
| `task_sort.dfy` | `TaskSort` | the comparator, `sortTasks` as an insertion sort on an array copy, and its specification |
| `task_gateway.dfy` | `TaskGateway` | requests, id normalisation, `mapTodoToTask`, `mapTodosToTasks` |
| `task_store.dfy` | `TaskStore` | the store as class `Store`, the shallow filter merge, and replacing, removing and finding by id |
| `labels.dfy` | `Labels` | `getPriorityLabel`, `getStatusLabel` |
| `header.dfy` | `Header` | `handleSortChange` |
| `kanban_board.dfy` | `KanbanBoard` | `tasksByStatus`, the columns and their counts, render precedence |
| `list_view.dfy` | `ListView` | `groupedTasks`, `getPriorityBadge`, `StatusGroup`, render precedence |
| `scenarios.dfy` | `Scenarios` | the concrete cases of the repository's test suites, as lemmas and verified store call sequences |

### Modelling choices

- **Timestamps.** Dates are integers of milliseconds, the value
  `getTime()` returns.
  - The due date `mapTodoToTask` produces is the `YYYY-MM-DD` part of an
    ISO string.
  - Read back with `new Date(...)`, that is midnight UTC of its day, so
    the model takes `(t / 86400000) * 86400000`.
- **Filter fields.** `FilterOptions` fields are `Option`s, because
  `filterTasks` only tests truthiness.
  - A present but empty status or priority list is truthy, so it rejects
    every task.
  - An empty search string is falsy, so it imposes nothing.
  - `assignee` is never read.
- **The `setFilters` patch.** Each key is an `Option<Option<T>>`:
  - `None`: the key is absent, and the old value is kept.
  - `Some(None)`: an explicit `undefined`, which clears the field. The
    filter presets of `app/page.tsx` rely on this.
  - `Some(Some(v))`: the key is set to `v`.
- **Sorting.** `Array.prototype.sort` is stable.
  - `SortCopy` copies the input into a fresh array and insertion-sorts
    it in place.
  - It is proved equal to the functional `SortTasks`.
  - `SortTasks` is proved to be sorted, a permutation, and stable.
  - `SortIsUnique` shows that every stable sorted arrangement equals it.
    Any stable engine algorithm therefore gives the same answer.
  - The input is a value, so it is left unchanged.
- **Random values and the clock.** What `mapTodoToTask` draws from
  `Math.random()` and reads from the clock is an `Enrichment` record.
  - The source reads the clock three times: `new Date()` for the due
    date, `Date.now()` for the creation time, and `new Date()` again for
    the update time. These are the fields `dueClock`, `createdClock` and
    `updatedClock`, which need not be equal.
  - The random draws are typed with the ranges the source can produce,
    and the contracts state bounds only.
- **Store outcomes.** Each store action takes an `Outcome`: `Success(v)`,
  or `Failure(thrown)`.
  - The thrown value is an `Error` with a message, or something else.
  - For anything else, the action's fixed fallback text is used, e.g.
    "Failed to fetch tasks".
  - Each action runs as one atomic step.
- **getTask.** Its id is put into the URL as given, so `"task-5"` is
  requested as `/todos/task-5`.
  - Update and delete strip the prefix first (`GetKeepsLocalPrefix`).
- **`Number()`.** `updateTask` reads the stripped id with `Number()`.
  - White space and line terminators around the text are ignored, a
    blank text reads as 0, and one leading `+` or `-` is allowed.
  - So "task-" alone maps the response with index 0, and "task- 5"
    with index 5.
- **Index arithmetic.** The status and priority tables are indexed with
  `index % 3` and `index % 4` on a non-negative index. For such an index,
  JavaScript's `%` and Dafny's agree.

## Model

| member | source | states |
|---|---|---|
| `Types.StatusCodeInjective` | types/index.ts:6 | distinct statuses have distinct string codes |
| `Types.PriorityCodeInjective` | types/index.ts:8 | distinct priorities have distinct string codes |
| `Text.Lower` | lib/api/taskService.ts:101 | `toLowerCase` keeps the length, turns each ASCII capital into the letter 32 code points further on, keeps every other character, and leaves no capital |
| `Text.LowerIdempotent` | lib/api/taskService.ts:101 | lower-casing twice equals lower-casing once |
| `Text.IndexOf` | lib/api/taskService.ts:101 | the first index where the pattern occurs; None exactly when it occurs nowhere |
| `Text.Contains` | lib/api/taskService.ts:101 | `includes` holds iff the pattern occurs at some index |
| `Text.ReplaceFirst` | lib/api/taskService.ts:69 | without an occurrence the string is unchanged; otherwise the first occurrence is replaced and what stands before and after it is kept |
| `Text.ReplaceLeadingPattern` | lib/api/taskService.ts:69 | replacing the first "task-" in "task-" + rest with "" gives rest |
| `Text.NatToString` | lib/api/taskService.ts:153 | a decimal rendering is non-empty, all digits, and has no leading zero unless it is "0" |
| `Text.IntToStringShape` | lib/api/taskService.ts:70 | a rendered integer starts with '-' exactly when it is negative, followed by digits with no leading zero; `IntRoundTrip` reads it back |
| `Text.DecimalRoundTrip` | lib/api/taskService.ts:77 | reading a rendered natural number gives the number back |
| `Text.IntRoundTrip` | lib/api/taskService.ts:77 | `Number()` applied to a rendered integer gives the integer back |
| `Text.ParseIntBasics` | lib/api/taskService.ts:77 | `Number()` reads a blank string as 0 and a digit string as its decimal value; a negative result needs a minus sign in the text |
| `Text.LeadingSpaceIgnored` | lib/api/taskService.ts:77 | white space put in front does not change what `Number()` reads |
| `Text.TrailingSpaceIgnored` | lib/api/taskService.ts:77 | white space put behind does not change what `Number()` reads |
| `Text.PlusSign` | lib/api/taskService.ts:77 | a leading plus sign reads as the number without it |
| `TaskFilter.MatchesIgnoresTitleCase` | lib/api/taskService.ts:99-101 | the case of the title does not matter, and an empty query accepts what no query accepts |
| `TaskFilter.MatchedQueryFitsTitle` | lib/api/taskService.ts:92-105 | a task found by a non-empty query has a title at least as long as the query; no criteria accept every task |
| `TaskFilter.FilterTasks` | lib/api/taskService.ts:91-107 | a task is in the result iff it is in the input and satisfies all three criteria; the result is no longer than the input |
| `TaskFilter.FilterIsSubsequence` | lib/api/taskService.ts:92 | the result is an order-preserving subsequence of the input |
| `TaskFilter.FilterMultiplicity` | lib/api/taskService.ts:92 | a matching task occurs as often as in the input, a non-matching one never |
| `TaskFilter.FilterAppend` | lib/api/taskService.ts:92 | filtering distributes over concatenation |
| `TaskFilter.FilterWithoutCriteria` | lib/api/taskService.ts:93-105 | with no status, no priority and no or empty search, the input comes back unchanged |
| `TaskFilter.EmptyListRejectsAll` | lib/api/taskService.ts:93-98 | a present but empty status or priority list rejects every task |
| `TaskFilter.FilterIgnoresAssignee` | lib/api/taskService.ts:91-107 | the assignee field never changes the result |
| `TaskFilter.FilterTwice` | lib/api/taskService.ts:91-107 | filtering by f and then g equals filtering by any h that accepts exactly what both accept |
| `TaskFilter.StatusAndPriorityIsIntersection` | lib/api/taskService.ts:93-98 | status and priority together equal either filter applied after the other, and keep exactly the tasks both single filters keep |
| `TaskFilter.FilterIdempotent` | lib/api/taskService.ts:91-107 | filtering a filtered list again changes nothing |
| `TaskFilter.SearchIgnoresQueryCase` | lib/api/taskService.ts:99-101 | a query and its lower-cased form select the same tasks |
| `TaskFilter.WithStatus` | components/tasks/KanbanBoard.tsx:71 | a task is selected iff it is in the input with that status |
| `TaskFilter.WithStatusIsStatusFilter` | components/tasks/KanbanBoard.tsx:71 | one status column equals `filterTasks` with that single status |
| `TaskFilter.WithStatusSnoc` | components/tasks/ListView.tsx:365-367 | pushing a task extends only its own status's bucket, at the end |
| `TaskFilter.StatusPartition` | components/tasks/KanbanBoard.tsx:68-75 | the four status selections have sizes that add up to the input's size |
| `TaskSort.PriorityRank` | lib/api/taskService.ts:127 | the priority rank lies in 0..3; it is 0 exactly for urgent and 3 exactly for low |
| `TaskSort.UrgencyOrder` | lib/api/taskService.ts:127 | urgent ranks before high, high before medium, medium before low |
| `TaskSort.Compare` | lib/api/taskService.ts:117-134 | zero iff the two keys tie; at most zero iff the first task may stand before the second in the chosen direction |
| `TaskSort.CompareAntisymmetric` | lib/api/taskService.ts:134 | swapping the tasks negates the comparator, and so does reversing the direction |
| `TaskSort.UrgentFirstAscending` | lib/api/taskService.ts:126-134 | an urgent task compares before a non-urgent one iff priority is sorted ascending |
| `TaskSort.WithKey` | lib/api/taskService.ts:117-134 | the tasks with a given key are exactly those of the input carrying it |
| `TaskSort.SortCopy` | lib/api/taskService.ts:112-138 | sorting a copy in place yields exactly `SortTasks` of the input |
| `TaskSort.InsertLast` | lib/api/taskService.ts:113 | one insertion step places the next element as `Insert` does and leaves the rest of the array alone |
| `TaskSort.InsertAt` | lib/api/taskService.ts:113 | insertion puts the element right after the last one not comparing greater |
| `TaskSort.WithKeyAppend` | lib/api/taskService.ts:117-134 | selecting by key distributes over concatenation |
| `TaskSort.WithKeyMultiplicity` | lib/api/taskService.ts:117-134 | a task occurs among its key's tasks as often as in the input |
| `TaskSort.InsertPermutes` | lib/api/taskService.ts:113 | insertion adds exactly the one element |
| `TaskSort.InsertWithKey` | lib/api/taskService.ts:113 | insertion appends the element to its key's run and leaves other keys' runs alone |
| `TaskSort.InsertSorted` | lib/api/taskService.ts:134 | inserting into a sorted list keeps it sorted |
| `TaskSort.SortTasksCorrect` | lib/api/taskService.ts:112-138 | the result is a permutation of the input, ordered by the key in the chosen direction, and keeps equal keys in input order |
| `TaskSort.StableIsPermutation` | lib/api/taskService.ts:113 | an arrangement that keeps each key's run is a permutation |
| `TaskSort.SortedStableUnique` | lib/api/taskService.ts:112-138 | two sorted arrangements with the same key runs are equal |
| `TaskSort.StableSameEmptiness` | lib/api/taskService.ts:113 | arrangements with the same key runs are empty together |
| `TaskSort.HeadKeysAgree` | lib/api/taskService.ts:134 | two sorted arrangements with the same key runs start with the same key |
| `TaskSort.HeadsAndTailsAgree` | lib/api/taskService.ts:113 | with equal head keys, same key runs give equal heads and tails with the same runs |
| `TaskSort.SortIsUnique` | lib/api/taskService.ts:112-138 | any sorted, stable arrangement of the input is the result of `sortTasks` |
| `TaskGateway.UpstreamId` | lib/api/taskService.ts:69 | a number is rendered in decimal; a string without "task-" is unchanged; a string with it loses exactly the five characters of its first "task-" and keeps what stands before and after |
| `TaskGateway.LocalIdLosesPrefix` | lib/api/taskService.ts:69 | "task-" + rest reaches upstream as rest |
| `TaskGateway.GetTasksRequest` | lib/api/taskService.ts:31-36 | a GET without body for one page of at most 50 records |
| `TaskGateway.GetTaskRequest` | lib/api/taskService.ts:41-46 | a GET without body; a string id goes into the path as given, a number is rendered in decimal |
| `TaskGateway.GetKeepsLocalPrefix` | lib/api/taskService.ts:41-46 | for "task-<n>", getTask asks for /todos/task-<n>, a different path than update and delete use |
| `TaskGateway.GetAgreesByNumber` | lib/api/taskService.ts:41-46 | for the number n, getTask and deleteTask both ask for /todos/n |
| `TaskGateway.CreateTaskRequest` | lib/api/taskService.ts:51-63 | POST to /todos/add with the title, `completed: false` and `userId: 1` |
| `TaskGateway.CreateSendsOnlyTitle` | lib/api/taskService.ts:55-62 | drafts with the same title send the same request |
| `TaskGateway.UpdateTaskRequest` | lib/api/taskService.ts:68-78 | PUT to the normalised id, with the patch's title, no userId, and `completed` true iff the patch sets status done |
| `TaskGateway.UpdateWithoutStatusSendsIncomplete` | lib/api/taskService.ts:74-75 | a patch without status sends `completed: false` |
| `TaskGateway.DeleteTaskRequest` | lib/api/taskService.ts:83-86 | DELETE to the normalised id, without body |
| `TaskGateway.LocalAndNumericIdsAgree` | lib/api/taskService.ts:69-70 | "task-<n>" and the number n address the same record in update and delete |
| `TaskGateway.DayStart` | lib/api/taskService.ts:158 | the date part is a multiple of a day, at most a day before the instant |
| `TaskGateway.MapTodoToTask` | lib/api/taskService.ts:143-183 | id "task-" + (todo id or index); title is the record's text when that is non-empty, otherwise "Task <index>"; done iff completed, otherwise status by index % 3; priority by index % 4; tags are the first index % 2 + 1 of the pool; one checklist of 4 with 0..3 done; 0..2 attachments; creation within 30 days before the creation-time clock reading; update time equal to its own reading; due date at a day start within 29 days after the due-date reading |
| `TaskGateway.MapTodosToTasks` | lib/api/taskService.ts:188-192 | at most 50 tasks, one per leading upstream record |
| `TaskGateway.MappedListRoundTrip` | lib/api/taskService.ts:188-192 | the k-th mapped task is the k-th record mapped with index k + 1 and the k-th draws; it is done iff its record was completed, has priority and tags chosen by position k + 1, and a non-zero upstream id is addressed again by that id |
| `TaskGateway.MapResponse` | lib/api/taskService.ts:60-62 | a response with a non-negative id is mapped by `mapTodoToTask` with that id as index; a positive id becomes "task-<id>" |
| `TaskGateway.ResponseMappingsAgree` | lib/api/taskService.ts:62-77 | updating a mapped record under its numeric or local id maps it exactly as create and get did |
| `TaskGateway.MapUpdateResponse` | lib/api/taskService.ts:77 | the response is mapped iff `Number()` of the upstream id is a non-negative integer, and then with that number as index |
| `TaskGateway.UpdateIndexFromLocalId` | lib/api/taskService.ts:77 | updating "task-<n>" or n maps the response with index n |
| `TaskGateway.UpdateIndexFromBlankLocalId` | lib/api/taskService.ts:77 | updating "task-" alone maps the response with index 0 |
| `TaskGateway.UpdateIndexFromSpacedLocalId` | lib/api/taskService.ts:77 | updating "task- <n>" maps the response with index n |
| `TaskGateway.DoneSurvivesUpdate` | lib/api/taskService.ts:68-78 | if upstream echoes the completed flag, the mapped task is done iff the patch asked for done |
| `TaskStore.ErrorMessage` | store/taskStore.ts:62 | an Error gives its own message, even an empty one; anything else thrown gives the action's fallback |
| `TaskStore.ViewContents` | store/taskStore.ts:138-143 | the displayed list holds exactly the matching tasks with their multiplicities, sorted and stable |
| `TaskStore.MergeFilters` | store/taskStore.ts:117-120 | each key absent from the patch keeps its value; each present key, even `undefined`, takes the patch's value |
| `TaskStore.MergeLaws` | store/taskStore.ts:117-120 | the empty patch changes nothing, a patch applied twice acts once, two patches compose, a full patch replaces |
| `TaskStore.UndefinedStatusClears` | store/taskStore.ts:117-122 | merging `{status: undefined}` into otherwise empty criteria lets every task through |
| `TaskStore.ReplaceById` | store/taskStore.ts:87-89 | same length; each position with the id holds the update, every other position is unchanged |
| `TaskStore.ReplaceByIdLaws` | store/taskStore.ts:87-89 | an absent id changes nothing; after the update every task with the id is the update; replacing twice acts once |
| `TaskStore.RemoveById` | store/taskStore.ts:104-106 | a task survives iff it was present and has another id |
| `TaskStore.RemoveIsSubsequence` | store/taskStore.ts:104-106 | the survivors keep their order |
| `TaskStore.RemoveMultiplicity` | store/taskStore.ts:104-106 | a task with another id keeps its multiplicity |
| `TaskStore.RemoveAbsentId` | store/taskStore.ts:104-106 | deleting an absent id changes nothing |
| `TaskStore.FindById` | store/taskStore.ts:133-136 | the found task is present with that id; nothing is found iff no task has it |
| `TaskStore.FindByIdFirst` | store/taskStore.ts:134 | the found task is the first with that id |
| `TaskStore.Store.constructor` | store/taskStore.ts:35-52 | empty lists, nothing selected, not loading, no error, no criteria, due date ascending |
| `TaskStore.Store.ApplyFiltersAndSort` | store/taskStore.ts:138-143 | re-establishes the displayed list and changes nothing else |
| `TaskStore.Store.FetchTasks` | store/taskStore.ts:55-67 | on success stores the list and clears the error; on failure keeps both lists and records the message or the fallback; loading ends false |
| `TaskStore.Store.CreateTask` | store/taskStore.ts:69-81 | on success prepends the task, which is displayed iff it matches the criteria; on failure keeps the lists and records the error |
| `TaskStore.Store.UpdateTask` | store/taskStore.ts:83-98 | on success replaces by id and refreshes the selection if it had that id; on failure keeps the lists and the selection and records the error |
| `TaskStore.Store.DeleteTask` | store/taskStore.ts:100-115 | on success removes by id, so no displayed task has it, and drops the selection if it had that id; on failure keeps everything and records the error |
| `TaskStore.Store.SetFilters` | store/taskStore.ts:117-122 | criteria become the shallow merge; the displayed list follows |
| `TaskStore.Store.SetSort` | store/taskStore.ts:124-127 | sort is replaced wholesale; the displayed list follows |
| `TaskStore.Store.SetSelectedTask` | store/taskStore.ts:129-131 | only the selection changes |
| `TaskStore.Store.SelectTaskById` | store/taskStore.ts:133-136 | the selection becomes the first task with the id, or none |
| `TaskStore.Store.ClearFilters` | store/taskStore.ts:145-148 | no criteria, due date ascending, and the displayed list is a permutation of all tasks |
| `Labels.GetPriorityLabel` | lib/utils.ts:35-43 | the key comes back iff the table has no entry for it; a non-empty key never gives an empty label |
| `Labels.GetStatusLabel` | lib/utils.ts:45-53 | the key comes back iff the table has no entry for it; a non-empty key never gives an empty label |
| `Labels.PriorityLabels` | lib/utils.ts:36-42 | the four priority labels, and an unknown key unchanged |
| `Labels.StatusLabels` | lib/utils.ts:46-52 | the four status labels, and an unknown key unchanged |
| `Labels.LabelsDistinguish` | lib/utils.ts:35-53 | different priorities or statuses get different labels |
| `Labels.LabelsIdempotent` | lib/utils.ts:35-53 | labelling a label again changes nothing |
| `Header.HandleSortChange` | components/layout/Header.tsx:92-97 | nothing without an active sort or a handler; the clicked field; the same field flips the direction, another field gives ascending |
| `Header.ClickTwiceRestores` | components/layout/Header.tsx:94-96 | two clicks on the active field restore the sort |
| `Header.NewFieldTwiceDescends` | components/layout/Header.tsx:94-96 | two clicks on a new field give that field descending |
| `KanbanBoard.TasksByStatus` | components/tasks/KanbanBoard.tsx:68-76 | every status has an entry holding exactly its tasks in input order |
| `KanbanBoard.RenderBoard` | components/tasks/KanbanBoard.tsx:37-116 | spinner iff loading, error panel iff not loading and the error is non-empty; otherwise four columns in order, each with its status's tasks, a count equal to their number, counts summing to the list size |
| `ListView.GroupLabel` | components/tasks/ListView.tsx:32-37 | every heading is non-empty, and it reads "On Progress" exactly for the in-progress group |
| `ListView.GroupLabelAgainstStatusLabel` | components/tasks/ListView.tsx:32-37 | a group heading equals `getStatusLabel` of its status iff the status is not in progress |
| `ListView.GetPriorityBadge` | components/tasks/ListView.tsx:39-46 | High iff "high", Low iff "low", Medium for a missing priority, "medium", "urgent" and every other key |
| `ListView.BadgesOfPriorities` | components/tasks/ListView.tsx:39-46 | the badge of each priority and of a missing one |
| `ListView.GroupTasks` | components/tasks/ListView.tsx:357-370 | every status has a bucket holding exactly its tasks in input order |
| `ListView.StatusGroup` | components/tasks/ListView.tsx:245-247 | nothing is rendered iff the group is empty; otherwise its label, tasks and positive count |
| `ListView.RenderList` | components/tasks/ListView.tsx:372-411 | loading notice iff loading, error notice iff not loading and the error is non-empty; otherwise the four groups in order and the empty notice iff there are no tasks |
| `ListView.GroupsCoverTasks` | components/tasks/ListView.tsx:357-411 | the shown groups hold as many tasks as the list, and every group is hidden iff the list is empty |
| `Scenarios.NoFilterExample` | lib/api/__tests__/taskService.test.ts:156-159 | no criteria keep all three tasks |
| `Scenarios.StatusFilterExample` | lib/api/__tests__/taskService.test.ts:161-166 | status todo keeps "Design UI" only |
| `Scenarios.StatusesFilterExample` | lib/api/__tests__/taskService.test.ts:168-172 | statuses todo and done keep two tasks |
| `Scenarios.PriorityFilterExample` | lib/api/__tests__/taskService.test.ts:174-179 | priority high keeps "Design UI" only |
| `Scenarios.SearchExample` | lib/api/__tests__/taskService.test.ts:181-186 | search "deploy" keeps "Deploy app" only |
| `Scenarios.NoMatchExample` | lib/api/__tests__/taskService.test.ts:188-192 | search "nonexistent" keeps nothing |
| `Scenarios.DueDateAscExample` | lib/api/__tests__/taskService.test.ts:244-249 | due date ascending gives B, C, A |
| `Scenarios.DueDateDescExample` | lib/api/__tests__/taskService.test.ts:251-256 | due date descending gives A, C, B |
| `Scenarios.PriorityAscExample` | lib/api/__tests__/taskService.test.ts:258-263 | priority ascending puts urgent first and low last |
| `Scenarios.CreatedAscExample` | lib/api/__tests__/taskService.test.ts:265-270 | creation ascending gives B, C, A |
| `Scenarios.DeletePathExamples` | lib/api/__tests__/taskService.test.ts:89-104 | "task-5" and 5 both delete /todos/5 |
| `Scenarios.MappingExample` | lib/api/__tests__/taskService.test.ts:21-42 | two records map to two tasks, the first titled "Buy groceries" with id "task-1", the second done |
| `Scenarios.FetchScenario` | store/__tests__/taskStore.test.ts:62-102 | a fetch stores the list; a failed fetch keeps it, reports "Network error", and ends not loading |
| `Scenarios.CreateDeleteScenario` | store/__tests__/taskStore.test.ts:104-159 | a created task goes first; deleting the selected task removes it and clears the selection |
| `Scenarios.FilterScenario` | store/__tests__/taskStore.test.ts:161-182 | merged criteria keep both keys; clearing restores the defaults; an explicit `undefined` status clears that key only |
| `Scenarios.SelectScenario` | store/__tests__/taskStore.test.ts:194-208 | selecting by id finds the task, or nothing for an unknown id |

## Left out

- The network. `apiClient` and its axios calls are not part of this model.
  - Requests are values.
  - The store's actions receive what each awaited call produced.
- Concurrency between overlapping async actions, and the loading flag
  while a fetch is suspended. Each action is one atomic step.
- `Math.random()`, `Date.now()` and `new Date()` are inputs of
  `MapTodoToTask`, one field for each of the three clock readings.
  - Only the ranges they can produce are modelled.
  - `setDate` across a daylight-saving change is not modelled: a due day
    is taken as exactly 86 400 000 ms.
  - The ISO string formatting is not modelled either; timestamps are
    numbers.
- `toLowerCase` is modelled on ASCII letters only. Other Unicode case
  mappings are not modelled.
- `Text.ParseInt` models `Number()` on optionally signed decimal digits
  with white space around them, and on blank text (0). Fractions
  ("5.0", "5."), exponents ("5e0"), radix prefixes ("0x5") and
  "Infinity" give None, although JavaScript reads them as numbers.
  - So `MapUpdateResponse` gives None for "task-5.0", where the source
    maps with index 5.
  - For "task-0x5" the source also maps with index 5; the model gives None.
- `Text.ParseInt`, `Text.IntToString`, `Text.IntRoundTrip` and
  `TaskGateway.UpdateIndexFromLocalId` use exact unbounded integers.
  JavaScript numbers are IEEE doubles.
  - `Number()` reads digit strings exactly only up to 2^53 in magnitude:
    `Number("9007199254740993")` is 9007199254740992.
  - A template literal renders 10^21 and above in exponent form ("1e+21").
  - So the round trip holds in the source only for |n| <= 2^53. The model
    proves it for every integer. No id or index the core handles comes near
    these bounds.
- `TaskGateway.MapUpdateResponse` and `TaskGateway.MapResponse`: an
  index that is negative, not a number, or not an integer gives None.
  - For most such indices the source reads its status or priority table
    out of range and produces an `undefined` field.
  - Not for all of them. JavaScript's `%` gives `-0` for a negative
    multiple of the divisor, and `-0` reads entry 0 of the table.
    - A negative multiple of 4 whose record is completed gives a fully
      defined task: status done, priority low.
    - A negative multiple of 12 does the same when the record is not
      completed: status todo, priority low.
    - The same holds for a non-integer string that `Number()` still reads
      as an integer, such as "5.0" or "0x5".
  - The model gives None for all of these indices. Tasks mapped with such
    an index are not modelled.
- `Labels.GetPriorityLabel` and `Labels.GetStatusLabel`: keys inherited
  from `Object.prototype` (such as "constructor") are not modelled. The
  model treats them as absent from the table.
- `ListView.GetPriorityBadge` has the same limit for inherited keys.
- `cn`, `formatDate` and `formatDateTime` in `lib/utils.ts` are not part
  of this model. They wrap styling and date-formatting libraries.
- The progress percentage of `TaskCard` is not modelled, because it is
  floating-point arithmetic.
- Out of scope:
  - React hooks;
  - the theme and sidebar providers;
  - i18n;
  - dialogs, the form schema and the page wiring.
  - The explicit-`undefined` filter preset of `app/page.tsx` appears only
    as `Scenarios.FilterScenario` and `TaskStore.UndefinedStatusClears`.
- The column titles, icons and colours of the board, and the icons and
  animations of both views, are presentation only and not modelled.
