# Skill tracker: a Dafny model of the store and its views

The skill tracker keeps three collections in one client-side store: skills (each
with milestones, tags, resources, optional todos and daily progress), categories,
and a newest-first activity log of at most 100 entries. The React views around
it derive lists and counts from those collections: the todos view, the
dashboard, the skill dialog, the all-skills page and the kanban board.

This project models that core functionally. The store state is an immutable
value, each store action is a function from state to state, and each view
derivation is a pure function over sequences. Fresh ids and clock readings are
parameters, so every operation is deterministic.

Modules, one per source file or concept:

- `Types` (lib/types.ts): the entity records, the closed enumerations with their
  stored string values, and `Patch<T>`, which models one field of a
  `Partial<...>` update.
- `Categories` (lib/data/categories.ts): the ten built-in categories.
- `Store` (lib/store.ts): initial state, skill, category and log actions, the two
  queries, and arbitrary runs of actions.
- `TodosView`, `Dashboard`, `SkillDialog`, `AllSkills`, `Kanban`: the derivations
  in the corresponding components.
- `Seqs` and `Text`: shared helpers.
  - `Seqs`: an order-preserving filter; a lexicographic order on integer
    sequences; a stable insertion sort. The sort models `Array.prototype.sort`
    with a comparator that orders elements by a key.
  - `Text`: JavaScript's `trim` whitespace set, ASCII lower-casing, `includes`.
- `Dates`: why comparing YYYY-MM-DD strings character by character orders them
  by date.

lib/types.ts:29-30 declares `dailyProgress` and `todos` as required arrays, but
`addSkill` (lib/store.ts:36-42) spreads the draft unchanged and the skill dialog
never supplies them. The model therefore keeps both fields as `Option` in
`Skill`, and a skill added from the dialog has neither.

## Model

| member | source | states |
|---|---|---|
| Types.StatusValuesExact | lib/types.ts:21 | The stored status strings parse back to their status, and the four status values are distinct. |
| Types.PriorityValuesExact | lib/types.ts:12 | The priorities low, medium and high round-trip through their stored strings and are distinct. |
| Types.ResourceTypeValuesExact | lib/types.ts:41-46 | The five resource types round-trip through their stored strings and are distinct. |
| Types.ActionValuesExact | lib/types.ts:56-62 | The six activity actions round-trip through their stored strings and are distinct. |
| Types.ParseStatus | lib/types.ts:21 | Parsing a string yields a status only when that status is stored as exactly this string. |
| Categories.DefaultsDistinctIds | lib/data/categories.ts:3-74 | There are ten built-in categories, with pairwise distinct ids. |
| Store.Initial | lib/store.ts:32-34 | The initial state has no skills and no log entries. Its categories are the ten built-in ones, with distinct ids. |
| Store.AddActivityLog | lib/store.ts:108-118 | The stamped entry becomes the head of the log. The rest of the log is the old log's prefix, and the length is min(old + 1, 100). Skills and categories are untouched. |
| Store.AddSkill | lib/store.ts:36-53 | Exactly one skill is appended; the earlier skills are unchanged. It carries every draft field, including absent todos and daily progress, plus the fresh id and timestamps. A `created` entry "Created skill: <title>" for the new id heads the log. |
| Store.FindSkill | lib/store.ts:65 | `find` returns the first skill with the id (no earlier skill has it), or nothing exactly when no skill has it. |
| Store.AddSkillThenFind | lib/store.ts:36-53 | With a fresh id, looking the new id up after `addSkill` finds a skill holding exactly the draft and the creation time. |
| Store.MergeSkill | lib/store.ts:59 | Every field the update gives overwrites the skill's, every field it leaves out keeps the skill's value, and `updatedAt` is always the fresh timestamp, even when the update carries one. |
| Store.UpdateSkill | lib/store.ts:55-74 | Only skills with the matching id are merged; every other skill and the categories are unchanged. A `status_changed` entry is pushed exactly when the update carries a status and a skill with the id exists afterwards; otherwise the log is unchanged. |
| Store.UpdateLogsIff | lib/store.ts:64-73 | The log condition holds if and only if three things hold: the update gives a status, a skill with the id existed, and the update does not rename that id. |
| Store.SameStatusStillLogs | lib/store.ts:64-73 | Setting a skill's status to the value it already has still logs `status_changed`. |
| Store.UpdateUnknownIdIsNoOp | lib/store.ts:55-74 | Updating an id no skill has leaves the whole state unchanged, log included. |
| Store.ProgressNotClamped | lib/types.ts:22 | Any integer progress, including values outside 0..100, is stored as given. |
| Store.DeleteSkill | lib/store.ts:76-81 | Deleting removes exactly the skills with the id and the log entries for that id; every other skill and entry survives as often as before, in its relative order. Categories are untouched. |
| Store.AddCategory | lib/store.ts:83-92 | Exactly one category with the draft's fields and the fresh id is appended; nothing else changes. |
| Store.MergeCategory | lib/store.ts:97 | Every field the update gives overwrites the category's and every field it leaves out is kept; an empty update is the identity. |
| Store.UpdateCategory | lib/store.ts:94-100 | Only categories with the matching id are merged; skills and log are unchanged. |
| Store.DeleteCategory | lib/store.ts:102-106 | Deleting removes exactly the categories with the id; every other category survives as often as before, in order. Skills and the log are untouched. |
| Store.DeleteCategoryLeavesDangling | lib/store.ts:102-106 | A skill in a deleted category keeps the category id, which then names no category. |
| Store.GetSkillsByCategory | lib/store.ts:120-122 | The result holds exactly the skills in the category, each as often as in the store, as an order-preserving subsequence. |
| Store.GetSkillsByStatus | lib/store.ts:124-126 | The result holds exactly the skills with the status, each as often as in the store, as an order-preserving subsequence. |
| Store.StepKeepsLogBound | lib/store.ts:116 | Every store action keeps the log at 100 entries or fewer. |
| Store.RunKeepsLogBound | lib/store.ts:116 | Any sequence of store actions keeps the log at 100 entries or fewer. |
| Store.ReachableLogBound | lib/store.ts:32-34 | Every state reachable from the initial state has at most 100 log entries. |
| Text.TrimStart | components/skill-dialog.tsx:103 | The result is a suffix of the input that starts with a non-space, and only whitespace was dropped. |
| Text.TrimEnd | components/skill-dialog.tsx:103 | The result is a prefix of the input that ends with a non-space, and only whitespace was dropped. |
| Text.Trim | components/skill-dialog.tsx:103 | The trimmed text is the input with a whitespace prefix and a whitespace suffix cut off, and it neither starts nor ends with whitespace. |
| Text.TrimIdempotent | components/skill-dialog.tsx:103 | Trimming twice is trimming once. |
| Text.BlankIffAllSpace | components/todos-view.tsx:101 | A string trims to empty exactly when every character is whitespace. |
| Text.ContainsEmpty | app/all-skills/page.tsx:54-56 | Every string contains the empty string. |
| Seqs.Filter | lib/store.ts:78-79 | Filtering keeps exactly the elements satisfying the predicate, each as often as before, and never lengthens the input. |
| Seqs.FilterIsSubseq | lib/store.ts:78-79 | A filtered list is an order-preserving subsequence of its input. |
| Seqs.SortBy | components/todos-view.tsx:110-127 | The sort's output has the input's length and is a permutation of the input. |
| Seqs.SortBySorted | components/todos-view.tsx:110-127 | The sort's output is ordered by the key. |
| Seqs.SortByStable | components/todos-view.tsx:110-127 | Elements with equal keys keep their input order: for each key, the sorted list's elements with that key equal the input's, in the same order. |
| Seqs.LexCompareAgrees | components/todos-view.tsx:116 | The three-way comparison is at most zero exactly when the first sequence is lexicographically no greater, and zero exactly on equal sequences. |
| Dates.LexIsNumeric | lib/types.ts:2 | For strings of equal length with digits at the same positions and equal characters elsewhere, character order coincides with the numeric order of their digits. |
| Dates.DayOrder | lib/types.ts:2 | For two YYYY-MM-DD strings, character order is date order. |
| TodosView.Tagged | components/todos-view.tsx:69-74 | A skill contributes its todos in order, each tagged with the skill and its id. A skill without a todo list contributes nothing. |
| TodosView.AllTodos | components/todos-view.tsx:67-77 | Every flattened entry comes from a skill in the list and carries that skill's id and one of its todos; the length is the total todo count. |
| TodosView.AllTodosConcat | components/todos-view.tsx:69 | The flattening of two skill lists is the concatenation of their flattenings, so skill order is kept. |
| TodosView.AllTodosComplete | components/todos-view.tsx:67-77 | Every todo of every skill appears in the flattened list. |
| TodosView.CollectTodos | components/todos-view.tsx:67-77 | The imperative `forEach`/`push` loop computes exactly the flattening. |
| TodosView.ApplyFiltersIsConjunction | components/todos-view.tsx:84-107 | The four filter stages, each skipped when its selector is off, keep exactly the todos that satisfy the conjunction of the four selectors, in order. |
| TodosView.FilteredTodos | components/todos-view.tsx:80-130 | The intended list (sorting a copy): exactly the matching todos, as a permutation of the filtered list, sorted by the selected key; with the `created` sort, in store order. |
| TodosView.FilteredTodosInPlace | components/todos-view.tsx:80-130 | As written: the shown list is the intended one computed over the memoised array's current order; with no filter applying, the sort reorders the memoised array itself. |
| TodosView.PrioritySortLeaksIntoCreated | components/todos-view.tsx:81-125 | A low then a high todo, sorted by priority with no filter and then shown by `created`, appear high first, against store order. |
| TodosView.StatusSelector | components/todos-view.tsx:84-88 | `active` keeps exactly the incomplete todos, `completed` exactly the completed ones, and `all` keeps every todo. |
| TodosView.BlankSearchKeepsAll | components/todos-view.tsx:101 | A whitespace-only search filters nothing. |
| TodosView.SearchIsUntrimmed | components/todos-view.tsx:101-106 | A non-blank query is matched untrimmed: " react" does not find the todo titled "react". |
| TodosView.CompareAgreesWithKey | components/todos-view.tsx:110-127 | The comparator orders two todos as their sort keys do and answers zero exactly on equal keys. |
| TodosView.PrioritySortOrder | components/todos-view.tsx:117-120 | After the priority sort, high comes before medium and medium before low. |
| TodosView.DueDateSortOrder | components/todos-view.tsx:112-116 | After the due-date sort, every dated todo precedes every undated one. Dated todos are in date order, and undated todos keep their relative order. |
| TodosView.UndatedCompareEqual | components/todos-view.tsx:113 | Two todos without a due date compare equal. |
| TodosView.ComputeStats | components/todos-view.tsx:133-144 | The completed count is the number of completed todos and active = total − completed. The high-priority count is the number of incomplete high-priority todos. The overdue count is the number of todos satisfying `TodosView.IsOverdue` (incomplete, with a due date, before the clock reading; the same test as `isOverdue` at components/todos-view.tsx:210-213). Both it and the high-priority count are at most the active count. |
| TodosView.NeverOverdue | components/todos-view.tsx:210-213 | A completed todo, or one with no (or an empty) due date, is never overdue. |
| TodosView.OrUndefined | components/todos-view.tsx:186 | An empty due-date text becomes absent; any other text is kept. |
| TodosView.SubmitTodo | components/todos-view.tsx:178-198 | A blank title or no skill makes no call. Otherwise an edit calls `updateTodo` for the edited todo and a creation calls `addTodo` with `completed` false. In both calls the title and priority come from the form, an empty due date is passed as absent and a non-empty due date is passed unchanged. |
| Dashboard.RoundedMean | components/dashboard.tsx:40 | The integer result is the mean rounded half up: within half a unit of `sum / n`. |
| Dashboard.AvgProgress | components/dashboard.tsx:39-41 | With no skills the average is 0; otherwise it is the rounded mean of the progress values. |
| Dashboard.ComputeStats | components/dashboard.tsx:33-42 | Each per-status count is the number of skills with that status, the four counts sum to the total, and the average is the rounded mean. |
| Dashboard.StatusCountsSum | components/dashboard.tsx:33-38 | Every skill is counted under exactly one status, so the counts sum to the number of skills. |
| Dashboard.AvgProgressInRange | components/dashboard.tsx:39-41 | If every progress lies in 0..100, so does the average. |
| Dashboard.StatusData | components/dashboard.tsx:44-49 | The pie keeps exactly the slices with a positive count, in the fixed order To Learn, Learning, Practiced, Mastered. |
| Dashboard.StatusDataSumsToTotal | components/dashboard.tsx:44-49 | The pie's values sum to the number of skills. |
| Dashboard.PieSumsCounts | components/dashboard.tsx:44-49 | With no negative count, the values of the slices kept by the filter add up to the four status counts. |
| Dashboard.Bars | components/dashboard.tsx:51-56 | There is one bar per category, in category order, each counting the skills that reference the category's id. |
| Dashboard.RankedBars | components/dashboard.tsx:57-58 | The ranked bars are a permutation of the bars with a positive count, in non-increasing count order. |
| Dashboard.RankedBarsStable | components/dashboard.tsx:58 | The sort is stable: bars with equal counts keep their category order. |
| Dashboard.CountKeyAgrees | components/dashboard.tsx:58 | The sort key orders two bars exactly as the comparator `(a, b) => b.count - a.count` does: `a` may precede `b` if and only if the comparator is not positive. |
| Dashboard.CategoryData | components/dashboard.tsx:51-59 | The histogram is the first min(10, n) of the ranked bars: each belongs to a category and counts that category's skills, every count is positive, and the counts do not increase. |
| Dashboard.CategoryDataIsTop | components/dashboard.tsx:58-59 | A category with skills is left out of the histogram only when 10 bars with counts at least as high are shown. |
| Dashboard.RecentActivity | components/dashboard.tsx:62 | Recent activity is the first min(5, n) entries of the newest-first log. |
| SkillDialog.LoadForm | components/skill-dialog.tsx:54-80 | Editing loads every form field from the skill, with a missing target date shown as empty. A new skill gets empty fields, status `to-learn`, progress 0, and the first category's id (or nothing when there are no categories). |
| SkillDialog.AddTag | components/skill-dialog.tsx:102-107 | A blank input or one whose trimmed text is already a tag changes nothing. Otherwise the trimmed input is appended and the input is cleared. |
| SkillDialog.AddTagKeepsNoDup | components/skill-dialog.tsx:102-107 | A duplicate-free tag list stays duplicate-free, and adding the same input twice is adding it once. |
| SkillDialog.RemoveTag | components/skill-dialog.tsx:109-111 | Every occurrence of the tag is removed; every other tag survives as often as before, in order. Removing an absent tag changes nothing. |
| SkillDialog.RemoveUndoesAddTag | components/skill-dialog.tsx:102-111 | Removing a freshly added tag restores the tag list. |
| SkillDialog.AddMilestone | components/skill-dialog.tsx:113-124 | A blank title changes nothing. Otherwise exactly one incomplete milestone with the fresh id and the untrimmed title is appended, and the inputs are cleared. |
| SkillDialog.ToggleMilestone | components/skill-dialog.tsx:126-135 | Only the milestones with the id flip `completed`. `completedAt` is set when one becomes complete and cleared when it is reverted; all other milestones are unchanged. |
| SkillDialog.ToggleTwice | components/skill-dialog.tsx:126-135 | Toggling twice restores every `completed` flag, and restores outright each milestone that was incomplete with no completion time. |
| SkillDialog.RemoveMilestone | components/skill-dialog.tsx:137-139 | Every milestone with the id is dropped; the rest survive as often as before, in order. |
| SkillDialog.RemoveUndoesAddMilestone | components/skill-dialog.tsx:113-139 | Removing a milestone just added under a fresh id restores the list. |
| SkillDialog.AddResource | components/skill-dialog.tsx:141-152 | The resources change only when both title and url are non-blank. Then exactly one resource with the fresh id is appended, and the inputs reset to an empty article. |
| SkillDialog.RemoveResource | components/skill-dialog.tsx:154-156 | Every resource with the id is dropped; the rest survive as often as before, in order. |
| SkillDialog.RemoveUndoesAddResource | components/skill-dialog.tsx:141-156 | Removing a resource just added under a fresh id restores the list. |
| SkillDialog.HandleSubmit | components/skill-dialog.tsx:82-93 | A blank title or no category calls neither `addSkill` nor `updateSkill`. An edit passes all nine form fields, status included, and leaves id, timestamps, todos and daily progress alone. A creation passes the same nine fields with no todos or daily progress. |
| SkillDialog.EditAlwaysLogsStatus | components/skill-dialog.tsx:86-87 | Every saved edit pushes a `status_changed` entry, even when the status did not change. |
| SkillDialog.LoadThenSaveUnchanged | components/skill-dialog.tsx:54-93 | Opening a skill and saving it unchanged only refreshes `updatedAt` and turns a missing target date into an empty one. |
| SkillDialog.AddedSkillHasNoTodos | components/skill-dialog.tsx:82-90 | A skill created from the dialog has no todo list and no daily progress. |
| AllSkills.StatusLabelInjective | app/all-skills/page.tsx:33-41 | The four statuses have four distinct labels. |
| AllSkills.FilteredSkills | app/all-skills/page.tsx:53-60 | A skill is listed if and only if it matches the search, the status and the category, as often as it is in the store and in store order, so the shown count is at most the total. |
| AllSkills.EmptySearchMatches | app/all-skills/page.tsx:54-56 | The empty search matches every skill. |
| AllSkills.NoSelectionListsAll | app/all-skills/page.tsx:53-60 | With no search and both selectors on `all`, every skill is listed in order. |
| AllSkills.AllSelectorIsNoRestriction | app/all-skills/page.tsx:57-58 | A selector on `all` imposes no restriction. |
| AllSkills.StatusSelectionIsStoreQuery | app/all-skills/page.tsx:57 | Selecting one status lists exactly what the store's `getSkillsByStatus` returns. |
| AllSkills.CategorySelectionIsStoreQuery | app/all-skills/page.tsx:58 | Selecting one category lists exactly what the store's `getSkillsByCategory` returns. |
| AllSkills.UnknownStatusListsNothing | app/all-skills/page.tsx:57 | A status selector that names no status lists nothing. |
| AllSkills.MilestoneProgress | app/all-skills/page.tsx:194 | The first number is the number of completed milestones and the second the number of milestones. The first never exceeds the second and equals it exactly when every milestone is completed. |
| Kanban.ColumnsAreStatuses | components/kanban-board.tsx:19-24 | The columns are the four statuses in pipeline order, one each, titled as the all-skills labels. |
| Kanban.ColumnIndex | components/kanban-board.tsx:19-24 | Each status has exactly one column. |
| Kanban.ViewsAgree | components/kanban-board.tsx:19-24 | The board's column titles, the dashboard's slice names and the all-skills labels agree. Each pie value equals the corresponding column's badge. |
| Kanban.ColumnSkills | components/kanban-board.tsx:55-57 | A column shows exactly the skills with its status, each as often as in the store, in store order. |
| Kanban.Badge | components/kanban-board.tsx:80 | A column's badge equals the number of skills with that status. |
| Kanban.BadgesSumToTotal | components/kanban-board.tsx:55-57 | Every skill appears in its status's column, and the badges sum to the number of skills. |
| Kanban.HandleDragEnd | components/kanban-board.tsx:39-49 | A drop outside any column, or back at its source column and index, makes no call. Any other drop sets the dragged skill's status to the target column. |
| Kanban.ApplyDrag | components/kanban-board.tsx:39-49 | A drag that makes no call leaves the state unchanged. |
| Kanban.ReorderStillLogs | components/kanban-board.tsx:43-48 | Moving a card within its own column keeps its status but still logs `status_changed`. |
| Kanban.DragMovesCard | components/kanban-board.tsx:47-48 | A drop onto another column moves every skill with the dragged id there and leaves every other skill unchanged. |

## Left out

- Persistence (zustand `create` and `persist`, the localStorage round-trip) is not modelled. The store is a plain value passed from action to action.
- `crypto.randomUUID()` and `new Date().toISOString()` are parameters. Freshness of an id is assumed only where a lemma needs it: `Store.AddSkillThenFind`, `SkillDialog.RemoveUndoesAddMilestone` and `SkillDialog.RemoveUndoesAddResource`.
- Streaks, daily-progress toggling and the todo mutations (`addTodo`, `toggleTodo`, `deleteTodo`, `updateTodo`) are not modelled. lib/store.ts declares none of them. The todos view's calls to them are recorded only as the arguments it passes (`TodosView.TodoCall`).
- The todos view is modelled with the corrected `TodosView.FilteredTodos`, which sorts a copy. The in-place sort of the memoised array is modelled only by `TodosView.FilteredTodosInPlace`, as recorded under Findings.
- The todos view's sort by skill title (`localeCompare`) is not modelled: locale collation has no counterpart here.
- `toLowerCase` is modelled on ASCII letters only; other characters are left unchanged.
- JavaScript `Date` parsing is replaced by comparing the date strings character by character. `Dates.DayOrder` shows this agrees with date order for YYYY-MM-DD strings; for other formats (e.g. full ISO timestamps against day strings) the model's order may differ from `Date`'s.
- TodosView.IsOverdue compares the due date with the clock reading as strings. The clock reading is a parameter.
- Float arithmetic: `Math.round(sum / n)` is the exact integer rounding half up. Non-integer progress values are not modelled, and neither is the pie chart's percent label.
- A `Partial<Skill>` field set explicitly to `undefined` for a required field is not modelled. A `Patch` either leaves a field alone or gives it a value of its type.
- The drag-and-drop library is not modelled. A droppable id is a `Status` rather than an arbitrary string, so a drop can never target an id outside the four columns.
- React rendering, hooks, dialogs, charts, the sample-data seeder, the theme switcher and the video background are not part of this model.
- Store.Initial: states the count and distinct ids of the initial categories rather than their full contents; the contents are `Categories.Defaults` by definition.

## Findings

| source | as written | input that shows it | evidently intended | confidence | as-written member | corrected member |
|---|---|---|---|---|---|---|
| components/todos-view.tsx:81-110 | `filtered` starts as the memoised `allTodos` array and `filtered.sort(...)` sorts in place, so with no filter applying the memoised array itself is reordered and later views start from that order | skills holding a low-priority then a high-priority todo; sort by priority with every filter on `all`, then switch to `created` | `created` shows store order, and each sort starts from store order (sort a copy) | not executed; medium | TodosView.FilteredTodosInPlace, TodosView.PrioritySortLeaksIntoCreated | TodosView.FilteredTodos |
