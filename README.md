# Task board client: a Dafny model

This project models the client-side logic of a small task-management web
client: a kanban board, a task table and an analytics dashboard that all read
one list of tasks from a remote task service, plus the add/edit form.

- **Data model** (`types.dfy`, module `Types`). `Status` is the four-member
  enumeration: To Do, Work In Progress, Completed, Expired. `Task` is the stored
  record. Its `status` is an optional free string, not the enumeration, and its
  `priority` is an unconstrained string. `TaskFormData` is what the form
  submits. It has no id and no status. Dates are integer timestamps, and a form
  date is `Option<int>`.
- **Remote outcomes** (`remote.dfy`, module `Remote`). Every request to the
  service is an `Outcome`: `Success(response)` or `Failure`. The caller supplies
  it. An update reply is a `TaskPatch`, whose absent keys are `None`.
- **Filters** (`seqs.dfy`, `queries.dfy`). `Filter` is the order-preserving
  `filter(...)` of the board and analytics pages; a count is the length of a
  filter. `HavingStatus` is the exact-match status filter both pages share;
  `HavingPriority` is the analytics page's exact-match priority filter.
- **Board page** (`board.dfy`, module `Board`). `TaskBoard` is a class whose
  only field is the `tasks` list. Its handlers `FetchTasks`, `MoveTask`,
  `HandleNewTask`, `HandleUpdateTask` and `HandleDeleteTask` each take the
  request's outcome. Each installs a new list, built by a pure function
  (`WithStatus`, `UpdateById`, `RemoveById`), and only on success. `Columns` is
  the projection onto the four columns. `DropOnColumn` and `SubmitCardEdit`
  show how cards and columns call the handlers: a drop always moves the
  dragged card's id to the column's key, and an edit always uses the card's
  own id.
- **Table page** (`table.dfy`, module `Table`). Load-time status defaulting
  (`Normalize`), the two type guards, the per-row fallbacks, the colour tables
  as maps, and the footer.
- **Analytics page** (`analytics.dfy`, module `Analytics`). Completion rate,
  the status and priority charts, the completed list, the overdue count, the
  recently completed table and the loading flag.
- **Form** (`add_form.dfy`, module `AddFormModel`). `AddForm` is a class with
  the form's fields, its errors and its alert. `submitted` records every call
  the form makes to its submit callback.

The handlers are **not** optimistic. The board sets a moved task's status only
after the update request has succeeded, so a failed move leaves the list as it
was. The same holds for create, edit and delete, as `app/page.tsx` is
written.

The recently completed table takes the first five completed tasks in list
order and only then sorts them by due date. It is therefore not the five
latest. `RecentTakesFirstFive` states this.

The board and the table disagree about a task whose status is absent or
unknown. The board shows it in no column, and the table shows it as To Do.
`TableAgreesWithBoard` states both halves.

## Model

| member | source | states |
|---|---|---|
| `Types.StatusValues` | lib/types.ts:1-6 | enumerating the enumeration yields four strings, the members' values in declaration order |
| `Types.StatusEnumeration` | lib/types.ts:1-6 | the values are exactly "To Do", "Work In Progress", "Completed", "Expired", pairwise distinct; every member is listed and reads back from its value |
| `Board.ColumnKeys` | app/page.tsx:12 | the board's literal column list equals the enumeration's values in order, so the four column keys are pairwise distinct |
| `Queries.HavingStatus` | app/page.tsx:116 | the filtered tasks are exactly the tasks whose status equals the string; an absent status matches nothing |
| `Queries.HavingStatusOrder` | app/page.tsx:116 | the status filter keeps collection order: it distributes over concatenation |
| `Queries.HavingStatusAll` | app/analytics/page.tsx:43 | the status filter keeps every task iff all have that status, and keeps none iff none has it |
| `Queries.HavingPriorityOrder` | app/analytics/page.tsx:56-60 | the priority filter keeps collection order and multiplicity: it distributes over concatenation |
| `Queries.HavingPriority` | app/analytics/page.tsx:56-60 | the filtered tasks are exactly the tasks whose priority equals the string |
| `Board.Columns` | app/page.tsx:112-116 | one column per key, in key order, each holding that key's tasks |
| `Board.ColumnPlacement` | app/page.tsx:112-116 | a task shows in column i iff its status equals key i; it shows in at most one column; it shows in some column iff its status is an enumeration value |
| `Board.WithStatus` | app/page.tsx:40-44 | a move keeps length and order, gives every task with the id the new status with all other fields unchanged, and leaves every other task unchanged |
| `Board.MoveShowsInTargetColumn` | app/page.tsx:40-44 | after a confirmed move, every task with the id is in the target column and in no other column |
| `Board.MoveTwice` | app/page.tsx:40-44 | two confirmed moves of one id amount to the last one |
| `Board.MoveScenario` | app/page.tsx:34-50 | a one-task board moved from To Do to Completed has that task alone in Completed and nothing in To Do |
| `Board.Merge` | app/page.tsx:85 | each field the reply carries replaces the stored one; each field it lacks keeps the stored value |
| `Board.MergeLaws` | app/page.tsx:83-87 | spreading a full reply yields the reply's task; an empty reply changes nothing; spreading a reply twice equals spreading it once |
| `Board.UpdateById` | app/page.tsx:83-87 | an edit keeps length and order, spreads the reply over every task with the id, and leaves every other task unchanged |
| `Board.UpdateAdoptsReply` | app/page.tsx:80-87 | when the reply is the service's whole copy of the task, that copy replaces every task with the id |
| `Board.RemoveById` | app/page.tsx:99 | after a delete no task has the id, every task with another id remains, and the result is a sub-multiset of the list: nothing new appears and nothing is repeated |
| `Board.RemoveOrder` | app/page.tsx:99 | a delete keeps the relative order of the remaining tasks |
| `Board.CreateThenDelete` | app/page.tsx:62 | deleting a freshly appended task whose id is new restores the previous list |
| `Board.DeleteAfterMove` | app/page.tsx:99 | deleting after a confirmed move of the same id gives the same list as deleting without the move |
| `Board.TaskBoard.constructor` | app/page.tsx:18 | the list starts empty |
| `Board.TaskBoard.FetchTasks` | app/page.tsx:20-31 | a successful load replaces the list wholesale; a failure leaves it unchanged |
| `Board.TaskBoard.MoveTask` | app/page.tsx:34-50 | a successful move installs the moved list; a failed move leaves the list unchanged |
| `Board.TaskBoard.HandleNewTask` | app/page.tsx:52-66 | a successful create appends the service's task to the old list; a failure changes nothing |
| `Board.TaskBoard.HandleUpdateTask` | app/page.tsx:68-91 | a successful edit installs the merged list; a failure changes nothing |
| `Board.TaskBoard.HandleDeleteTask` | app/page.tsx:95-103 | a successful delete installs the filtered list, in which no task has the id; a failure changes nothing |
| `Board.DropOnColumn` | components/ui/TaskColumn.tsx:6-10 | a drop moves the dragged card's id to the column's key, whatever the card's current status |
| `Board.SubmitCardEdit` | components/ui/TaskCard.tsx:57-69 | an edit submitted from a card updates by the card's own id, ignoring the id the form passes |
| `Table.Normalize` | app/table/page.tsx:26-29 | loading keeps length, order and every non-status field; the status becomes To Do exactly when it is absent or empty |
| `Table.NormalizeIdempotent` | app/table/page.tsx:26-29 | defaulting twice equals defaulting once, and no status is falsy afterwards |
| `Table.LoadTable` | app/table/page.tsx:22-36 | a successful load stores exactly the reply with missing statuses defaulted, one task per reply entry, none with a falsy status; a failure keeps the list |
| `Table.IsValidStatus` | app/table/page.tsx:47-50 | holds iff the status is present and is the value of some enumeration member |
| `Table.IsValidPriority` | app/table/page.tsx:52-55 | holds iff the priority is Low, Medium or High, the own keys of the priority colour table |
| `Table.DisplayStatus` | app/table/page.tsx:85 | the shown status is an enumeration member: the task's own when valid, otherwise To Do |
| `Table.DisplayPriority` | app/table/page.tsx:86 | the shown priority is always valid: the task's own when valid, otherwise Medium |
| `Table.ColorLookupsTotal` | app/table/page.tsx:6-17 | after the fallbacks, both colour lookups find an entry |
| `Table.Rows` | app/table/page.tsx:84-114 | one row per task in order, showing its title, description and dates, the displayed status and priority of that task (both valid), and their colours |
| `Table.FooterCountsRows` | app/table/page.tsx:119-124 | the footer reads from 1 to n of n, where n is the number of rows |
| `Table.UnknownStatusShowsToDo` | app/table/page.tsx:85 | a non-empty unknown status such as "Done" survives loading but shows as To Do |
| `Table.TableAgreesWithBoard` | app/table/page.tsx:85 | a task in a board column shows that column's key in the table; a task in no column shows as To Do |
| `Analytics.CompletedTasks` | app/analytics/page.tsx:63 | exactly the tasks with status Completed, taken from the list |
| `Analytics.CompletedOrder` | app/analytics/page.tsx:63 | the completed list keeps collection order and multiplicity: it distributes over concatenation |
| `Analytics.CompletionRate` | app/analytics/page.tsx:40-47 | 0 for no tasks; otherwise 100 * completed / total rounded half up; always within 0..100 |
| `Analytics.CompletionRateEnds` | app/analytics/page.tsx:40-47 | all tasks completed gives 100, none completed gives 0 |
| `Analytics.TasksByStatus` | app/analytics/page.tsx:49-53 | one entry per status in enumeration order, each counting exactly the tasks with that status |
| `Analytics.StatusCountsAdd` | app/analytics/page.tsx:50-53 | the four status counts add up to the number of tasks whose status is an enumeration value |
| `Analytics.StatusTotal` | app/analytics/page.tsx:49-53 | the status counts sum to at most the number of tasks, with equality iff every status is valid |
| `Analytics.TasksByPriority` | app/analytics/page.tsx:55-60 | entries High, Medium, Low in that order, each an exact-match count |
| `Analytics.PriorityTotal` | app/analytics/page.tsx:55-60 | the priority counts sum to at most the number of tasks, with equality iff every priority is High, Medium or Low |
| `Analytics.OverdueCount` | app/analytics/page.tsx:101-103 | the overdue figure is the Expired entry of the status chart |
| `Analytics.FiguresAgree` | app/analytics/page.tsx:41-63 | the completed list's length is the Completed entry; each status entry counts the tasks of the matching board column |
| `Analytics.SortByDueDesc` | app/analytics/page.tsx:192-195 | the result is sorted by due date, latest first, and is a permutation of the input |
| `Analytics.SortIsStable` | app/analytics/page.tsx:192-195 | the sort is stable: for every due date, the tasks due then appear in the same relative order as in the input |
| `Analytics.RecentCompleted` | app/analytics/page.tsx:190-195 | at most five rows, sorted latest due first, a permutation of the first five completed tasks |
| `Analytics.RecentTakesFirstFive` | app/analytics/page.tsx:190-195 | every row is among the first five completed tasks, so a sixth one never shows, whatever its due date |
| `Analytics.AfterFetch` | app/analytics/page.tsx:25-38 | after the fetch the page stops loading on success and on failure; the tasks are replaced only on success |
| `Analytics.LoadingLifecycle` | app/analytics/page.tsx:22-38 | the page opens loading with no tasks; after its fetch it has stopped loading and shows the reply's tasks, or none after a failure |
| `AddFormModel.TrimStart` | components/AddForm.tsx:67 | the result is a suffix of the input; everything removed is white space; the result does not start with white space |
| `AddFormModel.TrimEnd` | components/AddForm.tsx:67 | the result is a prefix of the input; everything removed is white space; the result does not end with white space |
| `AddFormModel.TrimIsSlice` | components/AddForm.tsx:67 | the trimmed title is a contiguous part of the title with only white space around it, and neither starts nor ends with white space |
| `AddFormModel.TrimmedEmpty` | components/AddForm.tsx:67 | trimming leaves nothing iff every character is white space |
| `AddFormModel.IsValid` | components/AddForm.tsx:67-77 | the form is valid iff the title has a character that is not white space and the start date is not after the due date when both are set |
| `AddFormModel.ValidationErrorsMeaning` | components/AddForm.tsx:65-73 | the title error is "Title is required", recorded iff the title is all white space; the dates error is "Due date must be after start date", recorded iff both dates are set and start is after due; no error is recorded iff the form is valid |
| `AddFormModel.BlankTitleRejected` | components/AddForm.tsx:67-69 | a title of white space alone makes the form invalid |
| `AddFormModel.DatesDecide` | components/AddForm.tsx:71-73 | with a non-blank title, the form is valid iff a date is missing or start is not after due |
| `AddFormModel.AddForm.constructor` | components/AddForm.tsx:50-60 | fields come from the initial data when it is present; with none given they are empty, no dates and Medium; an empty priority also becomes Medium; no errors and a hidden alert |
| `AddFormModel.AddForm.ValidateForm` | components/AddForm.tsx:64-87 | the recorded errors are the validation errors of the current fields; true iff none was recorded; when false, the fixed error alert; when true, the alert is kept |
| `AddFormModel.AddForm.HandleSubmit` | components/AddForm.tsx:89-104 | records the validation errors; without errors (a valid form) it calls back exactly once with id 0 and the current fields, then shows the success message for its mode; with errors it never calls back and shows the error alert |
| `AddFormModel.AddForm.OnTitleChange` | components/AddForm.tsx:164-167 | editing the title sets it and clears only the title error |
| `AddFormModel.AddForm.OnStartDateChange` | components/AddForm.tsx:217-220 | editing the start date sets it and clears only the dates error |
| `AddFormModel.AddForm.OnDueDateChange` | components/AddForm.tsx:246-249 | editing the due date sets it and clears only the dates error |
| `AddFormModel.AddForm.OnDescriptionChange` | components/AddForm.tsx:194 | editing the description touches no error |
| `AddFormModel.AddForm.OnPriorityChange` | components/AddForm.tsx:284 | choosing a priority touches no error |
| `AddFormModel.AddForm.CloseAlert` | components/AddForm.tsx:150 | closing the alert hides it and keeps its message and severity |

## Left out

- HTTP requests, URLs, request bodies on the wire and console logging. Each request is an `Outcome` parameter. A reply whose body has the wrong shape is not modelled.
- Concurrent handlers, such as a move racing a delete. Each handler is one atomic transition.
- React hooks, rendering, styling, charts and pie labels, the sidebar, the add button, click-outside listeners and the delayed `closeForm`.
- The drag-and-drop library. A drag that ends outside a column makes no call, so it has nothing to model.
- Parsing and formatting dates, and turning a stored task into the form's initial data. Both need date parsing.
- The average completion time and the "Days Taken" column. Both use floating-point day arithmetic.
- `CompletionRate`: uses exact rational arithmetic. The source computes `completed / total * 100` in floating point before rounding, which can land on the other side of an exact .5.
- `IsValidPriority`: counts only the colour table's own keys. The `in` operator would also accept inherited names such as "toString".
- `IsWhitespace`: a fixed list of the characters ECMAScript `trim` removes, not a Unicode database lookup.
- `TaskPatch`: a key whose value is JSON `null`, which the spread would copy over the task, is not modelled.
