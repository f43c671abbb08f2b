# Task board core in Dafny

A model of the task logic of the task-board page component
(`src/components/MainFeature.jsx`). The component holds:

- the task list;
- the fixed project list;
- the active project filter (`"all"` or a project id);
- the view mode;
- the sort key;
- whether the creation form is open;
- the creation form's draft.

On every render it computes four things from that state:

- the visible list, which is the project filter followed by a sort on the chosen key;
- a statistics record (total, completed, pending, overdue);
- the overdue highlight of each task;
- in board mode, three status columns.

Its handlers change the state:

- create a task from the draft, after validating its title and parsing its tags;
- update a task by spreading a partial record over it;
- delete a task;
- three status buttons: the list check box, the list play button and the board's advance button;
- the setters of the view state and the draft.

Create, update, delete and the three status buttons each emit a toast, modelled as the `Notice` they return; the setters emit none.

Layout, one module per file:

- `wrappers.dfy`: `Option`, for absent fields.
- `seqs.dfy`: order-preserving `Filter` (Array.prototype.filter) and its lemmas: membership, multiplicity, subsequence, append, partition sizes.
- `text.dfy`: ECMAScript `String.prototype.trim`, `split` on one character, `join`, and the tag parsing of the form.
- `task_model.dfy`: the records and enumerations, the spread merge of an update, the three status button rules, the sort ranks, and the colour and icon lookups with their fallbacks.
- `derivations.dfy`: the project filter, the stable sort, the statistics, the overdue predicate and the board columns.
- `task_store.dfy`: the task lists that create, update and delete put in place, and lemmas tying them to each other, to unique ids and to the statistics.
- `component.dfy`: the seed data and the class `MainFeature`. Its fields are the component's state. Its methods are the handlers, each stated as the new state in terms of the store functions.

Dates are integer millisecond timestamps. The clock is a parameter: `now` for creation and update times, `startOfToday` for the overdue test. Generated ids are a parameter too.

Behaviours of the code worth knowing, which the model keeps:

- **Tag parsing keeps empty pieces.** `"a,,b"` and `"a,"` give an empty tag (`ParseTagsTrailingComma`): empty pieces are kept, not dropped.
- **Closing or cancelling the form keeps the draft.** Line 276 only shows the form, and lines 294, 306 and 393 only hide it (`SetFormVisible`): cancelling does not discard the draft.
- **Updates to a missing id still count as success.** An update naming an absent id changes nothing (`UpdateAbsentId`) but still emits the success toast (`UpdateNotice`).
- **Ids are not checked for uniqueness.** The code neither checks nor guarantees them. `UniqueIds` is stated as an invariant that delete and update (without an id field) preserve, and that create preserves when the supplied id is fresh.

## Model

| member | source | states |
|---|---|---|
| Seqs.Filter | src/components/MainFeature.jsx:64 | the result is no longer than the input and holds exactly the input's elements that satisfy the condition |
| Seqs.FilterIsSubsequence | src/components/MainFeature.jsx:64 | filtering keeps the relative order of what it keeps |
| Seqs.FilterCount | src/components/MainFeature.jsx:138 | a kept element occurs as often as in the input, a dropped one not at all |
| Seqs.FilterKeepsAll | src/components/MainFeature.jsx:64 | when every element passes, the filter returns the input unchanged |
| Seqs.FilterIdempotent | src/components/MainFeature.jsx:138 | filtering twice with the same condition equals filtering once |
| Seqs.FilterAppend | src/components/MainFeature.jsx:83-84 | filtering distributes over concatenation |
| Seqs.FilterCons | src/components/MainFeature.jsx:64 | a head is kept before the filtered tail exactly when it passes |
| Seqs.FilterConsSame | src/components/MainFeature.jsx:64 | lists that filter alike still do with a common head |
| Seqs.FilterSwap | src/components/MainFeature.jsx:65-78 | neighbours of which at most one passes can trade places without changing the filtered list |
| Seqs.FilterDisjointSizes | src/components/MainFeature.jsx:83-88 | two conditions no element meets together select at most the whole list between them |
| Seqs.FilterMonotone | src/components/MainFeature.jsx:85-88 | a condition implied by another selects at least as many elements |
| Seqs.FilterPartitionSizes | src/components/MainFeature.jsx:554-555 | three conditions of which each element meets exactly one split the list's length among them |
| Text.TrimStart | src/components/MainFeature.jsx:92 | a suffix of the input; everything dropped is whitespace; the rest is empty or starts with non-whitespace |
| Text.TrimEnd | src/components/MainFeature.jsx:92 | a prefix of the input; everything dropped is whitespace; the rest is empty or ends with non-whitespace |
| Text.Trim | src/components/MainFeature.jsx:92 | the result is the piece of the input that starts after the leading whitespace, everything after it is whitespace, and it neither starts nor ends with whitespace |
| Text.TrimBlank | src/components/MainFeature.jsx:92 | trim gives the empty string exactly when every character is whitespace, which is when the title is refused |
| Text.TrimChars | src/components/MainFeature.jsx:105 | trim only keeps characters of its input, so a trimmed piece holds no comma |
| Text.TrimIdempotent | src/components/MainFeature.jsx:105 | trimming twice equals trimming once |
| Text.TrimOfTrimmed | src/components/MainFeature.jsx:105 | a string without surrounding whitespace is its own trim |
| Text.TrimLeadingSpace | src/components/MainFeature.jsx:105 | a leading blank does not change the trim |
| Text.Split | src/components/MainFeature.jsx:105 | splitting always yields at least one piece, even for the empty string |
| Text.SplitCount | src/components/MainFeature.jsx:105 | the number of pieces is the number of separators plus one |
| Text.JoinSplit | src/components/MainFeature.jsx:105 | no piece holds the separator, and joining the pieces with it rebuilds the input |
| Text.JoinPrepend | src/components/MainFeature.jsx:105 | joining with a new first piece puts that piece and a separator in front |
| Text.JoinExtend | src/components/MainFeature.jsx:105 | extending the first piece by a character extends the joined string by it |
| Text.SplitWithoutSeparator | src/components/MainFeature.jsx:105 | a string without the separator splits into itself alone |
| Text.SplitCons | src/components/MainFeature.jsx:105 | a non-separator in front extends the first piece |
| Text.SplitAtSeparator | src/components/MainFeature.jsx:105 | a separator after a separator-free prefix cuts off exactly that prefix as the first piece |
| Text.SplitJoin | src/components/MainFeature.jsx:105 | splitting a join of separator-free pieces gives the pieces back |
| Text.SplitPair | src/components/MainFeature.jsx:105 | a string with one separator splits into its two sides |
| Text.TrimEach | src/components/MainFeature.jsx:105 | same length as the input, piece i is the trim of input piece i |
| Text.ParseTags | src/components/MainFeature.jsx:105 | the tag list is empty exactly when the tag text is empty |
| Text.ParseTagsSpec | src/components/MainFeature.jsx:105 | a non-empty tag text gives one tag per comma plus one; tag i is the trimmed piece i of the comma split, holds no comma and is already trimmed |
| Text.ParseTagsJoin | src/components/MainFeature.jsx:105 | trimmed comma-free tags come back unchanged from their comma-joined text |
| Text.ParseTagsPair | src/components/MainFeature.jsx:105 | a text with one comma gives the two sides, trimmed |
| Text.ParseTagsCommaSpace | src/components/MainFeature.jsx:105 | two trimmed comma-free words written as "a, b" come back as exactly those two tags |
| Text.ParseTagsUrgentClient | src/components/MainFeature.jsx:105 | the tag text "urgent, client" gives the tags "urgent" and "client" |
| Text.ParseTagsTrailingComma | src/components/MainFeature.jsx:105 | a trailing comma yields a final empty tag rather than being dropped |
| TaskModel.Merge | src/components/MainFeature.jsx:126 | every field the update names (id, title, description, priority, status, due date, project, tags, creation time) takes the update's value, every other field keeps the task's, and the update time is set to now |
| TaskModel.StatusChange | src/components/MainFeature.jsx:446-448 | the partial record a status button sends, naming only the status; `TaskModel.MergeStatusOnly` states what merging it does |
| TaskModel.DefaultDraft | src/components/MainFeature.jsx:53-60 | the empty draft: blank texts, medium priority, no due date, project "work"; the state the constructor starts with and `CreateTask` returns to (lines 111-118) |
| TaskModel.MergeStatusOnly | src/components/MainFeature.jsx:126 | merging a status-only update changes the status and the update time and nothing else |
| TaskModel.CompleteToggle | src/components/MainFeature.jsx:446-448 | the check box yields completed exactly for a task not completed, and pending exactly for a completed one |
| TaskModel.PlayToggle | src/components/MainFeature.jsx:518-520 | the play button yields in progress exactly for a task not in progress, and pending exactly for one in progress |
| TaskModel.Advance | src/components/MainFeature.jsx:607-609 | the advance button always changes the status; it steps one status rank down, and from completed back to pending |
| TaskModel.AdvanceCycle | src/components/MainFeature.jsx:607-609 | three advances return to the start and two never do |
| TaskModel.PriorityRank | src/components/MainFeature.jsx:70 | priority ranks lie between 1 and 4 |
| TaskModel.StatusRank | src/components/MainFeature.jsx:74 | status ranks lie between 1 and 3 |
| TaskModel.ParsePriority | src/components/MainFeature.jsx:143-148 | a recognised spelling names the priority it parses to; an unrecognised one names none |
| TaskModel.ParseStatus | src/components/MainFeature.jsx:153-157 | a recognised spelling names the status it parses to; an unrecognised one names none |
| TaskModel.PriorityColor | src/components/MainFeature.jsx:142-150 | an unknown priority falls back to medium's colour, and the yellow dot means medium or unknown, nothing else |
| TaskModel.StatusIcon | src/components/MainFeature.jsx:152-159 | an unknown status falls back to the clock, and the clock means pending or unknown, nothing else |
| Derivations.ByProject | src/components/MainFeature.jsx:64 | the filtered list holds exactly the tasks of the active project, or every task when "all" is active |
| Derivations.ByProjectAll | src/components/MainFeature.jsx:64 | with "all" active the filter returns the whole list in order |
| Derivations.ByProjectExact | src/components/MainFeature.jsx:64 | with a project active the filter keeps exactly its tasks, each as often as before, in their order |
| Derivations.SortRank | src/components/MainFeature.jsx:65-78 | the key the sort orders on: the due date, the negated priority rank, the negated status rank, or 0 for any other key; `Derivations.CompareIsRankDifference` ties it to the comparator |
| Derivations.Compare | src/components/MainFeature.jsx:65-78 | the comparator as the page writes it, due-date difference or rank-table difference with the second task first |
| Derivations.CompareIsRankDifference | src/components/MainFeature.jsx:65-78 | the comparator is the difference of the two tasks' sort ranks, so it is antisymmetric and orders two tasks as their ranks do |
| Derivations.Insert | src/components/MainFeature.jsx:65-78 | inserting lengthens the list by one |
| Derivations.SortTasks | src/components/MainFeature.jsx:65-78 | the sort keeps the length |
| Derivations.InsertPermutes | src/components/MainFeature.jsx:65-78 | insert adds the task and nothing else |
| Derivations.SortPermutes | src/components/MainFeature.jsx:65-78 | the sort is a permutation |
| Derivations.InsertSorted | src/components/MainFeature.jsx:65-78 | inserting into a list ordered on the key keeps it ordered |
| Derivations.InsertStable | src/components/MainFeature.jsx:65-78 | inserting keeps every rank class in the order it would have with the task in front |
| Derivations.SortStable | src/components/MainFeature.jsx:65-78 | the sort keeps each class of equally ranked tasks in its input order |
| Derivations.SortSorted | src/components/MainFeature.jsx:65-78 | the sort's result is ordered on the comparator's rank |
| Derivations.SortSortedStable | src/components/MainFeature.jsx:65-78 | the sort is ordered and stable together |
| Derivations.SortReversedTriple | src/components/MainFeature.jsx:65-78 | three tasks in strictly decreasing rank come out reversed |
| Derivations.RankClassOfHead | src/components/MainFeature.jsx:65-78 | the first task belongs to its own rank class |
| Derivations.StableSortUnique | src/components/MainFeature.jsx:65-78 | two ordered lists with the same rank classes in the same order are equal, so the model agrees with any stable sort |
| Derivations.SortByKey | src/components/MainFeature.jsx:65-78 | the sorted view is a permutation; due dates ascend, priority ranks descend, status ranks descend, and any other key leaves the order alone |
| Derivations.ComputeStats | src/components/MainFeature.jsx:81-89 | the four dashboard counts over the whole list; `Derivations.StatsBounds`, `Derivations.OverdueCountGrows`, `TaskStore.CreateStats` and `TaskStore.CompleteStats` state their properties |
| Derivations.IsOverdue | src/components/MainFeature.jsx:161-163 | a task is overdue when it is not completed and due before the start of today, the same test the overdue count uses at lines 85-88; `Derivations.OverdueCountGrows` states how the count it feeds changes |
| Derivations.OverdueCountGrows | src/components/MainFeature.jsx:85-88 | as the start of today moves later the overdue count never shrinks |
| Derivations.StatsBounds | src/components/MainFeature.jsx:81-89 | total is the list length, completed and pending together do not exceed it, and overdue tasks are never completed ones |
| Derivations.BoardColumns | src/components/MainFeature.jsx:554-555 | the view filtered by pending, in progress and completed, in that order; the three lemmas below state the partition |
| Derivations.BoardColumnsSizes | src/components/MainFeature.jsx:554-555 | the three columns' sizes add up to the view's length |
| Derivations.BoardColumnsMembers | src/components/MainFeature.jsx:554-555 | each task of the view is in the column of its status and in no other |
| Derivations.BoardColumnsOrder | src/components/MainFeature.jsx:554-555 | each column keeps the view's order |
| Derivations.FilteredTasks | src/components/MainFeature.jsx:63-78 | the rendered list is the project filter followed by the sort; `Derivations.FilteredTasksSpec` states its properties |
| Derivations.FilteredTasksSpec | src/components/MainFeature.jsx:63-78 | the rendered list is a permutation of the project's tasks, ordered on the key, with equal-ranked tasks in list order |
| TaskStore.IsBlank | src/components/MainFeature.jsx:92 | a title is refused when its trim is empty, which by `Text.TrimBlank` is exactly when it is all whitespace |
| TaskStore.NewTask | src/components/MainFeature.jsx:97-108 | a created task has the given id and pending status, the draft's title (untrimmed), description, priority and project, the draft's due date or the current time when none is given, the parsed tags, and the current time as both creation and update time |
| TaskStore.UpdateTasks | src/components/MainFeature.jsx:124-128 | the length is kept; tasks with another id are untouched; tasks with the id are merged with the update |
| TaskStore.UpdateNotice | src/components/MainFeature.jsx:130-134 | the celebration toast appears exactly when the update sets the status to completed, the plain success toast otherwise |
| TaskStore.UpdateAbsentId | src/components/MainFeature.jsx:124-128 | an update naming an id no task has changes nothing |
| TaskStore.RemoveTasks | src/components/MainFeature.jsx:138 | the list without the tasks carrying the id; `TaskStore.RemoveSpec` and the lemmas after it state its properties |
| TaskStore.RemoveSpec | src/components/MainFeature.jsx:138 | delete keeps exactly the tasks with another id, each as often as before, in their order, and shortens the list by the number of tasks with the id |
| TaskStore.RemoveIdempotent | src/components/MainFeature.jsx:138 | deleting the same id twice equals deleting it once |
| TaskStore.RemoveAbsentId | src/components/MainFeature.jsx:138 | deleting an id no task has changes nothing |
| TaskStore.UniqueIdCount | src/components/MainFeature.jsx:138 | with unique ids, exactly one task carries a listed task's id |
| TaskStore.RemoveOne | src/components/MainFeature.jsx:138 | with unique ids, deleting a listed task's id removes exactly that task |
| TaskStore.CreateKeepsUniqueIds | src/components/MainFeature.jsx:97-110 | appending a task with a fresh id keeps ids unique |
| TaskStore.UpdateKeepsUniqueIds | src/components/MainFeature.jsx:124-128 | an update that does not set the id keeps ids unique |
| TaskStore.RemoveKeepsUniqueIds | src/components/MainFeature.jsx:138 | deleting keeps ids unique |
| TaskStore.UpdateFirst | src/components/MainFeature.jsx:124-128 | with unique ids, updating the first task's id changes that task alone |
| TaskStore.UniqueIdsTail | src/components/MainFeature.jsx:124-128 | unique ids stay unique without the first task |
| TaskStore.CreateStats | src/components/MainFeature.jsx:81-110 | after a create the total and the pending count grow by one and the completed count is unchanged |
| TaskStore.CompleteCount | src/components/MainFeature.jsx:124-128 | with unique ids, completing one task changes any count over the list by exactly what replacing that task changes |
| TaskStore.CompleteStats | src/components/MainFeature.jsx:81-135 | with unique ids, completing a task not completed keeps the total, adds one to completed, and removes one from pending and from overdue exactly when the task was pending and overdue respectively |
| Component.SeedTasks | src/components/MainFeature.jsx:8-39 | the three seed tasks with ids 1, 2 and 3, due 25, 24 and 23 December 2024 |
| Component.SeedProjects | src/components/MainFeature.jsx:41-45 | the three projects work, personal and health |
| Component.SeedViewByDueDate | src/components/MainFeature.jsx:8-78 | the first render shows the three seed tasks ordered 23, 24, 25 December |
| Component.OverdueExample | src/components/MainFeature.jsx:81-89 | one task due before today counts as overdue while open and not once completed |
| Component.MainFeature.constructor | src/components/MainFeature.jsx:8-60 | the initial state: the seed tasks and projects, all projects, list view, due-date sort, form closed, default draft |
| Component.MainFeature.View | src/components/MainFeature.jsx:63-78 | the list rendered from the current state |
| Component.MainFeature.Statistics | src/components/MainFeature.jsx:81-89 | the dashboard counts of the current list |
| Component.MainFeature.Columns | src/components/MainFeature.jsx:554-555 | the board's columns of the rendered list |
| Component.MainFeature.CreateTask | src/components/MainFeature.jsx:91-121 | a blank title only raises the error and changes nothing; otherwise the new task is appended, the draft is reset, the form closes and the creation toast is emitted; the view state is untouched either way |
| Component.MainFeature.UpdateTask | src/components/MainFeature.jsx:123-135 | the list becomes its mapped update, the toast is the update's notice, unique ids stay unique when the update does not set an id, and nothing else changes |
| Component.MainFeature.DeleteTask | src/components/MainFeature.jsx:137-140 | the list loses the tasks with the id, unique ids stay unique, the delete toast is emitted, and nothing else changes |
| Component.MainFeature.ToggleComplete | src/components/MainFeature.jsx:446-448 | the task's status becomes its toggled value, and the celebration toast appears exactly when the task was not completed, and "Task updated successfully" otherwise |
| Component.MainFeature.TogglePlay | src/components/MainFeature.jsx:518-520 | the task's status becomes its play toggle and the plain update toast appears |
| Component.MainFeature.AdvanceStage | src/components/MainFeature.jsx:607-609 | the task's status becomes the column's successor; the celebration appears exactly when advancing from the in-progress column, and "Task updated successfully" from the other two |
| Component.MainFeature.SelectProject | src/components/MainFeature.jsx:208-222 | the active project is set and the tasks and the other state are untouched |
| Component.MainFeature.SelectSort | src/components/MainFeature.jsx:243 | the sort key is set and the tasks and the other state are untouched |
| Component.MainFeature.SelectView | src/components/MainFeature.jsx:260 | the view mode is set and the tasks and the other state are untouched |
| Component.MainFeature.SetFormVisible | src/components/MainFeature.jsx:276-306 | the form is shown or hidden, and the draft and tasks are kept (the cancel button at line 393 does the same) |
| Component.MainFeature.EditDraft | src/components/MainFeature.jsx:319-379 | an input change replaces the draft and nothing else |

## Left out

- Date handling is not modelled: date-fns, `new Date(...)` and the date input's string parsing. A draft's due date is already a timestamp or absent. The seed dates are taken as midnight UTC, whereas the source builds them in the local time zone.
- The separate clock readings in one handler are collapsed into one `now`. The start of the current day is a parameter, `startOfToday`.
- `Date.now().toString()` id generation is a parameter. Uniqueness of the ids is not guaranteed by the code; it is stated as a preserved invariant.
- Toast text, icon rendering (`ApperIcon`), animation and the JSX layout are outside the model. The project metadata looked up for display is not modelled either. Toasts are the `Notice` values the handlers return.
- `editingTask` (line 51) is never used. The "calendar" view mode in the comment on line 48 has no view.
- `src/pages/Home.jsx` and `src/pages/NotFound.jsx` are pages around the component and are not part of this model.
- Characters are Unicode scalar values, not UTF-16 code units. Every whitespace character trim removes is in the Basic Multilingual Plane, so trim and split on `,` agree for well-formed text.
- Priorities and statuses are closed enumerations. The sort comparator's `NaN` for an unknown spelling cannot arise, and neither can a lookup of an object-prototype key such as `"toString"` in the colour or icon tables. The lookups' fallbacks are stated over spellings.
- The sort is modelled as a stable insertion sort. `Derivations.StableSortUnique` shows it agrees with any stable sort, which is what `Array.prototype.sort` is required to be since ES2019. In-place mutation of the freshly filtered array is not modelled.
- Text.Split: its own contract states only that there is at least one piece; the separator count, the rebuild by join and the separator-free pieces are the lemmas `Text.SplitCount` and `Text.JoinSplit`.
- Text.ParseTags: its own contract states only the empty case; the rest is `Text.ParseTagsSpec`.
- Text.Trim: its own contract states the slice, the whitespace after it and the non-whitespace ends; the blank case and character containment are the lemmas `Text.TrimBlank` and `Text.TrimChars`.
- Derivations.Insert: its own contract states the length only; the permutation, order and stability facts are `Derivations.InsertPermutes`, `Derivations.InsertSorted` and `Derivations.InsertStable`.
- Derivations.SortTasks: its own contract states the length only; the permutation, order and stability facts are `Derivations.SortPermutes`, `Derivations.SortSorted` and `Derivations.SortStable`.
- Component.MainFeature.CreateTask: its contract does not restate unique ids; `TaskStore.CreateKeepsUniqueIds` gives them when the id is fresh.
