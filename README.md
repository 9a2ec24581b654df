# Kanban Markdown dialect: a verified model

This project models the core of a VS Code extension that edits a kanban board
kept in a Markdown file. It covers five parts:

- **The dialect.** The board is a `# title` line, `## column` headings (with an
  optional `[Archived]` marker), tasks as `### title` headings or `- title`
  bullets, indented `- key: value` property lines, a `- steps:` list of
  `- [ ]` / `- [x]` step lines, and a fenced ```` ```md ```` description block.
- **The parser.** `parseMarkdown` is a single forward scan with mode flags and
  an `i--` rewind.
- **The generator.** `generateMarkdown` and `generateTaskProperties`.
- **The detail sidecar.** A task may keep its steps and description in a
  separate "detail" Markdown file. This part covers the detail file's codec and
  how detail files are applied to a parsed board.
- **The panel's edits and the roadmap.** The board edits of the kanban panel,
  and the roadmap panel's flattening of a board into rows with progress.

Modules:

- `Wrappers` holds `Option`.
- `JsString` holds the JavaScript string operations the code relies on:
  - `trim` with JavaScript's white-space set;
  - `split`, `substring`, line splitting after CRLF/CR normalisation, and ASCII
    lower-casing.
- `KanbanModel` holds the board, column, task and step values.
- `Dialect` holds the twelve reserved property keys, their names and their
  canonical order.
- `MarkdownParser` models `parseMarkdown`:
  - `Examine` is the loop body on one line;
  - `Feed`, `Run` and `Parse` are the scan;
  - the method `ParseMarkdown` is the loop itself, with its rewind.
- `ParserProperties` holds lemmas about the parser.
- `MarkdownGenerator` models the generator and `generateTaskDetailMarkdown`.
- `GeneratorProperties` holds lemmas about the generator.
- `TaskDetail` models the detail-file parser, `resolveDetailFilePath` and
  `applyDetailsToBoard`. `DetailProperties` holds lemmas about them.
- `BoardEdits` models the panel's board operations:
  - each operation is a function from board to board;
  - the class `KanbanPanel` holds the panel's `_board` and updates it through
    them.
- `EditProperties` holds lemmas about the board edits.
- `Roadmap` models `_buildRoadmapTasks` as a method with nested loops, and
  `_calculateProgress`. `RoadmapProperties` holds lemmas about them.

The source's nondeterminism, I/O and platform services are parameters:

- the ids `generateId` returns are a supplied stream `ids: nat -> string`;
- reading a detail file is a function `read: string -> Option<string>`;
- `path.isAbsolute`, `path.dirname` and `path.resolve` are the fields of
  `PathSemantics`.

JavaScript numbers in the roadmap are `real`. The facts proved about progress
(exactly 0, exactly 1 when all steps are completed, always within 0 and 1) also
hold for the rounded IEEE double quotient the code computes.

## Model

| member | source | states |
|---|---|---|
| MarkdownParser.ParseMarkdown | src/markdownParser.ts:39-189 | The line loop with its `i--` rewind terminates on the measure (lines left, task open) and yields exactly the board of the line-by-line transition `Parse`. |
| MarkdownParser.ScanLine | src/markdownParser.ts:52-179 | One turn of the loop body: a line that closes the open task leaves no task open and leaves the rest of the scan, that line included, to the new state; any other line is consumed and the rest of the scan continues from the new state. |
| MarkdownParser.RewindClosesTask | src/markdownParser.ts:173-179 | A line that asks to be examined again has closed the open task into the open column, and on its second examination it does not ask again. |
| MarkdownParser.NoRewindWithoutTask | src/markdownParser.ts:173-179 | With no task open, no line causes a rewind. |
| MarkdownParser.Examine | src/markdownParser.ts:52-180 | The loop body on one line, with the branches in the order of the source: fence toggle, description line, board title, column heading, task title, property, step, fence open, blank line, and the closing of the open task with a request to examine the line again. It has no contract of its own; the lemmas `ExamineSetsTitle`, `ExamineColumnHeading`, `ExamineTaskTitle`, `ExaminePropertyLine` and `ExamineStepLine` state what each branch does. |
| MarkdownParser.ExamineTaskLine | src/markdownParser.ts:120-179 | The branches from the task title on. A task line never changes the board built so far; only the column and task registers change. |
| MarkdownParser.FinalizeCurrentTask | src/markdownParser.ts:282-292 | A column comes out exactly when one was open. Without a task it is that column unchanged; with one, it keeps its id, title and archived flag and its tasks gain exactly the finalised task at the end. |
| ParserProperties.FinalizedTaskSpec | src/markdownParser.ts:282-292 | Finalisation changes at most the description. A non-blank description becomes its trimmed text, a blank one is deleted, and an absent one stays absent; applying it twice gives the same task as once. |
| ParserProperties.ExamineSetsTitle | src/markdownParser.ts:81-88 | The first `# ` line outside a code block sets the board title to the trimmed text after the marker, which is non-empty. |
| ParserProperties.ExamineKeepsTitle | src/markdownParser.ts:81-88 | A line never changes a non-empty board title. |
| ParserProperties.TitleKept | src/markdownParser.ts:81-88 | Once the title is non-empty, the scan of any further lines keeps it. |
| ParserProperties.ExamineColumnHeading | src/markdownParser.ts:92-117 | A `## ` line closes the open task and column, and opens a fresh empty column with the next id and the heading's title and archived flag. |
| ParserProperties.ParseHeadingBody | src/markdownParser.ts:99-106 | A heading's title is its text, less a trailing `[Archived]` marker, and it is archived exactly when the marker is there. |
| ParserProperties.MarkedTitle | src/markdownParser.ts:103-106 | Removing the marker from `title [Archived]` gives back the trimmed title. |
| ParserProperties.ColumnHeadingRoundTrip | src/markdownParser.ts:302-303 | The generated heading of a column is read back as the same title and archived flag, for a trimmed non-empty title not ending in `[Archived]`. |
| ParserProperties.ExamineTaskTitle | src/markdownParser.ts:120-145 | A task-title line with a column open finalises the open task and opens a new task with the next id and the line's title. |
| ParserProperties.ExamineTaskTitleWithoutColumn | src/markdownParser.ts:120-145 | A task-title line with no column open creates no task and changes nothing. |
| ParserProperties.RunKeepsTaskHasColumn | src/markdownParser.ts:120-145 | Throughout the scan, a task is open only while a column is open. |
| MarkdownParser.IsTaskTitle | src/markdownParser.ts:197-207 | The test for a task-title line: a `### ` heading, or an unindented `- ` bullet that is neither a reserved property key nor an indented check box. It has no contract of its own; `ReservedBulletNotTitle`, `SubheadingTaskTitle`, `BulletTaskTitle` and `CheckboxBulletTaskTitle` state what it accepts. |
| ParserProperties.ReservedBulletNotTitle | src/markdownParser.ts:197-207 | A `- key:` bullet whose key is one of the twelve reserved names is never a task title. |
| ParserProperties.SubheadingTaskTitle | src/markdownParser.ts:197-207 | `### title` is a task title, and its title is read back. |
| ParserProperties.BulletTaskTitle | src/markdownParser.ts:120-145 | An unindented `- title` bullet is a task title and reads back as the title, for titles that do not start with a reserved key or a check box. |
| ParserProperties.CheckboxBulletTaskTitle | src/markdownParser.ts:128-134 | `- [ ] title` and `- [x] title` are task titles with the check box removed. |
| MarkdownParser.ParseTaskProperty | src/markdownParser.ts:209-214 | A line is consumed exactly when it matches the property-line pattern; a matched line may leave the task unchanged (an empty `id`, an unknown `priority`). |
| MarkdownParser.SetProperty | src/markdownParser.ts:216-264 | A property line never changes the title or the description. |
| ParserProperties.SetPropertyFrame | src/markdownParser.ts:216-264 | A property line changes at most the one field its key names. |
| ParserProperties.SetPropertyIgnored | src/markdownParser.ts:216-257 | An empty `id` or `detail` value, or a `priority` or `workload` outside its names, leaves the task unchanged. |
| ParserProperties.PriorityNames | src/markdownParser.ts:234-238 | A priority value is accepted exactly when it is one of the three names, and then it is that priority. |
| ParserProperties.WorkloadNames | src/markdownParser.ts:239-243 | A workload value is accepted exactly when it is one of the four names, and then it is that workload. |
| ParserProperties.TagsReadBack | src/markdownParser.ts:228-233 | The generated `[a, b, …]` value is read back as the same tag list, for trimmed tags without commas. |
| ParserProperties.KeyPrefixUnique | src/markdownParser.ts:210 | No reserved key name followed by `:` is a prefix of another key's line, so a property line names one key. |
| ParserProperties.PropertyLineRead | src/markdownParser.ts:210-213 | A generated property line is matched as its key and its value, for a trimmed one-line value. |
| ParserProperties.BareKeyLineRead | src/markdownParser.ts:261-262 | A generated bare `- <key>:` line, the `- steps:` header among them, is matched as that key with an empty value. |
| ParserProperties.StepLineRead | src/markdownParser.ts:268-280 | A generated step line is matched as the same step, with `completed` exactly when the mark is `x`, and never as a property line. |
| MarkdownParser.ParseTaskStep | src/markdownParser.ts:268-280 | A step line appends to the steps only once `steps` exists. It has no contract of its own; `ExamineStepLine`, `ExamineStepWithoutList`, `RunStepLines` and `RunStepsBlock` state what it does in the scan. |
| ParserProperties.ExaminePropertyLine | src/markdownParser.ts:147-151 | In a task's property lines, a line the property pattern matches is consumed: it sets that key's field of the open task through `SetProperty` and changes nothing else of the parser state. |
| ParserProperties.StepLineNoProperty | src/markdownParser.ts:209-214 | A line the step pattern matches never matches the property pattern, so `parseTaskProperty` never takes a step line first. |
| ParserProperties.ExamineStepLine | src/markdownParser.ts:147-155 | Once a `- steps:` line has made the list, a step line in the task's properties appends its step at the end of the open task's steps and changes nothing else. |
| ParserProperties.ExamineStepWithoutList | src/markdownParser.ts:147-179 | Before a `- steps:` line has made the list, a step line is not taken as a step: it closes the open task into its column, leaves property mode and asks to be examined again. |
| ParserProperties.RunStepLines | src/markdownParser.ts:268-280 | Generated step lines, read in a task's properties once the list exists, append exactly their steps, in document order, and change nothing else. |
| ParserProperties.RunStepsBlock | src/markdownParser.ts:261-262 | A generated `- steps:` line followed by generated step lines leaves the open task with exactly those steps, in order, and changes nothing else of the parser state. |
| MarkdownGenerator.GenerateMarkdown | src/markdownParser.ts:294-329 | The board text: the `# title` pair when the title is non-empty, then per column its heading, a blank line and its tasks. Each task gets its header, its property lines, its description block when it has no detail path, and a blank line. It has no contract of its own; `ColumnHeadingRoundTrip`, `PropertyLinesCanonical` and `DetailedTaskWithheld` state its properties. |
| MarkdownGenerator.GenerateTaskProperties | src/markdownParser.ts:331-449 | The property lines of a task, each key's group in the canonical order. It has no contract of its own; `LinesForSpec` and `PropertyLinesCanonical` state which lines come out and in what order. |
| MarkdownGenerator.GenerateTaskDetailMarkdown | src/markdownParser.ts:517-539 | The detail file starts with `# <id>` (or `# Task` without an id) and ends in exactly one newline, with no white space before it. |
| GeneratorProperties.CanonicalKey | src/markdownParser.ts:331-449 | The canonical order lists each key at its rank. |
| GeneratorProperties.LinesForSpec | src/markdownParser.ts:331-449 | A key gets lines exactly when the task has a value for it, and its first line is `  - <key>:`, followed by ` <value>` except for `steps`. |
| GeneratorProperties.PropertyLinesCanonical | src/markdownParser.ts:331-449 | The property lines are one group per key the task has a value for, and for no other key. The groups come in the canonical order id, tags, priority, workload, updated, completed, milestone, start, due, detail, defaultExpanded, steps. |
| GeneratorProperties.DetailedTaskWithheld | src/markdownParser.ts:316 | A task with a detail path gets no `steps:` group and no description block on the board. |
| TaskDetail.ParseTaskDetailMarkdown | src/markdownParser.ts:458-515 | The flag-driven line loop yields exactly the steps and description of the line-by-line transition `ParseTaskDetail`. |
| DetailProperties.DetailFileLines | src/markdownParser.ts:517-539 | The generated detail file splits into the written lines followed by one empty line. |
| DetailProperties.DetailRoundTrip | src/markdownParser.ts:458-539 | Parsing the generated detail file gives back the task's steps when non-empty and its trimmed description when non-blank, and nothing else. |
| TaskDetail.ResolveDetailFilePath | src/markdownParser.ts:451-456 | An absolute detail path is returned unchanged. |
| TaskDetail.ApplyDetailsToBoard | src/markdownParser.ts:541-567 | The nested loops give the board with every task's detail file applied, column by column and task by task. |
| TaskDetail.ApplyDetail | src/markdownParser.ts:544-563 | One task's detail file applied: the loop body of `applyDetailsToBoard`. It has no contract of its own; the `ApplyDetail…` lemmas below state what it changes. |
| TaskDetail.ParseMarkdownWithDetails | src/markdownParser.ts:191-195 | The board parsed, then every task's detail file applied. It has no contract of its own; `ApplyDetailsIdempotent` and the `ApplyDetail…` lemmas state its properties. |
| DetailProperties.ApplyDetailFrame | src/markdownParser.ts:541-567 | Applying detail files changes only `steps` and `description`, and a task without a detail path not at all. |
| DetailProperties.ApplyDetailUnreadable | src/markdownParser.ts:547-553 | When the detail file cannot be read or is empty, both `steps` and `description` are removed. |
| DetailProperties.ApplyDetailNormalised | src/markdownParser.ts:554-564 | After a detail file is applied, the steps are absent or non-empty and the description is absent or trimmed and non-blank. |
| DetailProperties.ApplyGeneratedDetail | src/markdownParser.ts:517-567 | A task whose detail file holds what the generator wrote for it gets back its non-empty steps and its trimmed non-blank description. |
| DetailProperties.ApplyDetailIdempotent | src/markdownParser.ts:541-567 | Applying a task's detail file twice gives the same task as once. |
| DetailProperties.ApplyDetailsIdempotent | src/markdownParser.ts:541-567 | Loading the detail files of a board a second time changes nothing. |
| BoardEdits.FirstWithId | src/kanbanWebviewPanel.ts:309-318 | The lookup of `findColumn` and of `findIndex` in `findTask`: the index found holds the first element with the id, and nothing is found exactly when no element has it. |
| EditProperties.FindTaskSpec | src/kanbanWebviewPanel.ts:313-325 | `findTask` returns the first task with the id in the first column with the id. It finds nothing only when no column has the id, or that column has no such task. |
| BoardEdits.SpliceStart | src/kanbanWebviewPanel.ts:380 | `splice`'s start index is clamped into the sequence and is kept when already inside it. |
| BoardEdits.RemoveAt | src/kanbanWebviewPanel.ts:379 | `splice(i, 1)` removes exactly element `i` and keeps the others in order. |
| BoardEdits.InsertAt | src/kanbanWebviewPanel.ts:380 | `splice(i, 0, x)` puts `x` at `i` and keeps the others in order. |
| BoardEdits.TaskMoved | src/kanbanWebviewPanel.ts:369-382 | The board after `moveTask`. It has no contract of its own; `TaskMovedMissing`, `TaskMovedKeepsTasks`, `TaskMovedPlaces` and `TaskMovedFrame` state its properties. |
| BoardEdits.TaskDeleted | src/kanbanWebviewPanel.ts:406-416 | The board after `deleteTask`. It has no contract of its own; `TaskDeletedSpec` and `TaskDeletedMissing` state its properties. |
| BoardEdits.StepUpdated | src/kanbanWebviewPanel.ts:618-628 | The board after `updateTaskStep`. It has no contract of its own; `StepUpdatedSpec` states its properties. |
| BoardEdits.StepsReordered | src/kanbanWebviewPanel.ts:630-643 | The board after `reorderTaskSteps`. It has no contract of its own; `StepsReorderedSpec` and the `Reordered…` lemmas state its properties. |
| BoardEdits.ColumnAdded | src/kanbanWebviewPanel.ts:645-657 | The board after `addColumn`. It has no contract of its own; `ColumnAddedSpec` states its properties. |
| BoardEdits.ColumnMoved | src/kanbanWebviewPanel.ts:659-667 | The board after `moveColumn`. It has no contract of its own; `ColumnMovedInPlace` and `ColumnMovedSpec` state its properties. |
| BoardEdits.ArchiveSet | src/kanbanWebviewPanel.ts:676-683 | The board after `toggleColumnArchive`. It has no contract of its own; `ArchiveSetSpec` and `ArchiveSetMissing` state its properties. |
| EditProperties.TaskMovedMissing | src/kanbanWebviewPanel.ts:369-382 | A missing source column, target column or task leaves the board unchanged. |
| EditProperties.TaskMovedKeepsTasks | src/kanbanWebviewPanel.ts:369-382 | Moving a task keeps every task on the board, each as often as before. |
| EditProperties.TaskMovedPlaces | src/kanbanWebviewPanel.ts:369-382 | The moved task stands at `newIndex` of the target column, clamped as `splice` clamps it, and the target column grows by one. The source column loses exactly that task, and the target's other tasks keep their order: taking the moved task out again gives the target's tasks as they were before the insertion. |
| EditProperties.TaskMovedFrame | src/kanbanWebviewPanel.ts:369-382 | Only the two columns involved change. The title, the number of columns and every column's id, title and archived flag are kept. |
| EditProperties.TaskDeletedSpec | src/kanbanWebviewPanel.ts:406-416 | Deleting removes exactly the task `findTask` finds: its column keeps the other tasks in order, every other column is unchanged, the columns' own fields and the board title are kept, and the board loses exactly that one task. |
| EditProperties.TaskDeletedMissing | src/kanbanWebviewPanel.ts:406-416 | Deleting a task `findTask` does not find changes nothing. |
| EditProperties.StepUpdatedSpec | src/kanbanWebviewPanel.ts:618-628 | Only the `completed` flag of step `stepIndex` of the task found changes, and only for an index in range; otherwise the board is unchanged. The task's other fields and other steps, the other tasks of its column, the other columns, the columns' own fields and the board title are kept (`OnlyTaskChanged`). |
| EditProperties.ReorderedElements | src/kanbanWebviewPanel.ts:635-638 | The reordered steps are at most as many as the order's indices, and each is one of the original steps. |
| EditProperties.ReorderedIdentity | src/kanbanWebviewPanel.ts:635-638 | The order 0, 1, …, n-1 keeps the steps as they were. |
| EditProperties.ReorderedPermutation | src/kanbanWebviewPanel.ts:635-638 | An order that is a permutation of the indices gives a permutation of the steps. |
| EditProperties.StepsReorderedSpec | src/kanbanWebviewPanel.ts:630-643 | The task found gets the reordered steps, and its other fields, the other tasks of its column, the other columns, the columns' own fields and the board title are kept (`OnlyTaskChanged`); a missing task or one without steps leaves the board unchanged. |
| EditProperties.ColumnAddedSpec | src/kanbanWebviewPanel.ts:645-657 | Exactly one empty, unarchived column is appended at the end; the existing columns, the tasks of the board and the board title are unchanged. |
| EditProperties.ColumnMovedInPlace | src/kanbanWebviewPanel.ts:659-667 | Moving a column to its own index changes nothing. |
| EditProperties.ColumnMovedSpec | src/kanbanWebviewPanel.ts:659-667 | Moving a column keeps the board title, the number of columns and the same columns, and puts the moved column at its (clamped) new index. The other columns keep their order: without the moved column, the board's columns are as they were without it. |
| EditProperties.ArchiveSetSpec | src/kanbanWebviewPanel.ts:676-683 | Only the `archived` flag of the first column with the id changes, and it becomes the given value. |
| EditProperties.ArchiveSetMissing | src/kanbanWebviewPanel.ts:676-683 | Without a column of that id, nothing changes. |
| BoardEdits.NormalizedDate | src/kanbanWebviewPanel.ts:449-454 | A form date is kept exactly when it is not blank, and then as its trimmed text. |
| BoardEdits.Edited | src/kanbanWebviewPanel.ts:481-506 | The task after `editTask` wrote the form into it. It has no contract of its own; `EditedSpec` and `EditedDateLines` state its properties. |
| BoardEdits.TaskEdited | src/kanbanWebviewPanel.ts:433-435 | The board after `editTask`: the task `findTask` finds is replaced by its edited form. It has no contract of its own; `TaskEditedSpec` states its properties. |
| EditProperties.EditedSpec | src/kanbanWebviewPanel.ts:481-586 | After an edit, a start or due date is there exactly when the form held a non-blank one, trimmed. Tags and steps are always set; the id, detail path, updated, completed and milestone fields are kept. |
| EditProperties.EditedDateLines | src/kanbanWebviewPanel.ts:548-586 | After an edit, the generator writes a `start:` or `due:` line exactly for a non-blank form date, with the trimmed value. |
| EditProperties.TaskEditedSpec | src/kanbanWebviewPanel.ts:418-600 | The task found is rewritten from the form; the other tasks of its column, the other columns, the columns' own fields and the board title are kept (`OnlyTaskChanged`); a missing task leaves the board unchanged. |
| BoardEdits.KanbanPanel.MoveTask | src/kanbanWebviewPanel.ts:369-382 | With a board loaded, it becomes the board with the task moved; without one, nothing changes. |
| BoardEdits.KanbanPanel.DeleteTask | src/kanbanWebviewPanel.ts:406-416 | With a board loaded, it becomes the board with the task deleted; without one, nothing changes. |
| BoardEdits.KanbanPanel.EditTask | src/kanbanWebviewPanel.ts:418-600 | With a board loaded, it becomes the board with the task edited; without one, nothing changes. |
| BoardEdits.KanbanPanel.UpdateTaskStep | src/kanbanWebviewPanel.ts:618-628 | With a board loaded, it becomes the board with the step updated; without one, nothing changes. |
| BoardEdits.KanbanPanel.ReorderTaskSteps | src/kanbanWebviewPanel.ts:630-643 | With a board loaded, it becomes the board with the steps reordered; without one, nothing changes. |
| BoardEdits.KanbanPanel.AddColumn | src/kanbanWebviewPanel.ts:645-657 | With a board loaded, it becomes the board with the column appended; without one, nothing changes. |
| BoardEdits.KanbanPanel.MoveColumn | src/kanbanWebviewPanel.ts:659-667 | With a board loaded, it becomes the board with the column moved; without one, nothing changes. |
| BoardEdits.KanbanPanel.ToggleColumnArchive | src/kanbanWebviewPanel.ts:676-683 | With a board loaded, it becomes the board with the archived flag set; without one, nothing changes. |
| Roadmap.BuildRoadmapTasks | src/roadmapWebviewPanel.ts:161-182 | The nested loops produce exactly the rows of the columns, column after column, each column's tasks in order. |
| Roadmap.RowOf | src/roadmapWebviewPanel.ts:166-177 | One roadmap row built from a task and its column's title. It has no contract of its own; `RoadmapRowsSpec` states the field mapping and `ProgressBounded` the progress. |
| RoadmapProperties.RoadmapRowsSpec | src/roadmapWebviewPanel.ts:161-182 | There is exactly one row per task of the board, in board order. Each row copies its task's fields (`completedDate` from `completed`, `updatedDate` from `updated`) under the title of a column holding that task. |
| Roadmap.CompletedSteps | src/roadmapWebviewPanel.ts:189 | There are never more completed steps than steps. |
| Roadmap.CalculateProgress | src/roadmapWebviewPanel.ts:184-193 | Progress always lies between 0 and 1. |
| RoadmapProperties.ProgressFull | src/roadmapWebviewPanel.ts:184-193 | Progress is 1 exactly in a column titled `done` (any case, trimmed), or when the task has steps and all are completed. |
| RoadmapProperties.ProgressNone | src/roadmapWebviewPanel.ts:184-193 | Progress is 0 exactly outside a `done` column, when the task has no steps or none completed. |
| RoadmapProperties.ProgressBounded | src/roadmapWebviewPanel.ts:184-193 | Every row of the roadmap has progress between 0 and 1. |

## Left out

- File I/O:
  - `readDetailFile` is the parameter `read`;
  - `saveToMarkdown` and `saveTaskDetail` are not modelled. The text they write
    is `MarkdownGenerator.GenerateMarkdown` and
    `MarkdownGenerator.GenerateTaskDetailMarkdown`.
- Node `path` semantics (`isAbsolute`, `dirname`, `resolve`): abstract
  functions; only "an absolute path is kept" is stated.
- `Math.random` ids in `generateId` and `addColumn`: supplied as parameters.
- Debug instrumentation (`console.*`, appends to a local log file, `fetch` to a
  local URL, information messages): side effects that do not change the board
  or the generated text.
- VS Code plumbing: panel lifecycle, webview messages and their dispatch, HTML,
  file watchers, `toggleTaskExpansion` (it only posts a message), and the async
  `performAction` sequencing. Each panel method applies its edit at once.
- `addTask`: not modelled. The board edits listed here are the ones whose
  contracts matter for the dialect; `addTask` builds a task from untyped form
  data.
- src/html/roadmapScript.js (rendering, dates, layout), src/logger.ts and
  src/extension.ts: outside the codec and the board model.
- MarkdownParser.Parse: the full board round trip, parse after generate, is not
  proved. The round trip is proved for each kind of line:
  - column headings with the archived flag;
  - task titles;
  - property lines, tags, priorities and workloads;
  - the steps header and step lines;
  - the whole detail file.
- JsString.ToLowerAscii: `toLowerCase` is modelled as ASCII folding, which is
  exact for the comparisons with `true` and `done`.
- BoardEdits.ColumnMoved: an out-of-range `fromIndex`, where `splice` would
  insert `undefined`, is excluded by the precondition `MoveColumnDefined`.
- Roadmap.CalculateProgress: the quotient is an exact `real`, where the code
  computes `completed / length` as an IEEE double, rounded. Only the facts
  proved about it (0, 1, within 0 and 1) carry over to the rounded value.
- BoardEdits.StepUpdated, BoardEdits.StepsReordered, BoardEdits.TaskMoved,
  BoardEdits.ColumnMoved: the numbers a webview message carries (`stepIndex`,
  the `newOrder` entries, `newIndex`, `fromIndex`, `toIndex`) are typed `int`.
  Fractional and NaN values are not modelled: there `steps[1.5]` is `undefined`
  and the assignment throws, `reorderTaskSteps` copies `undefined` into the
  steps, and `splice` truncates its index.
- BoardEdits.TaskData: the form data of `editTask` is typed. The `typeof ...
  === 'string'` checks become `Option<string>`, and a value that is not a string
  counts as absent.
- BoardEdits.ColumnAdded: the new column has no `archived` field in the source.
  It is `false` here, which the generator and the parser treat alike.
- BoardEdits.KanbanPanel: the source mutates columns and tasks in place. Here
  the panel's board is replaced by a new value, so aliasing between the panel's
  board and other references to its objects is not captured.
- DetailProperties.DetailRoundTrip: stated for tasks the generator can write
  faithfully:
  - an id on one line without surrounding white space;
  - step texts that are non-empty, trimmed and on one line;
  - a description without carriage returns whose lines do not start with white
    space and are not a bare fence.
- Descriptions: the code strips the whole leading white-space run of a
  description line once it is at least four characters long, not just four
  characters. The model follows the code (src/markdownParser.ts:73, 475).
- The branch at src/markdownParser.ts:67-70 (a closing fence inside a code
  block) cannot be reached, because the branch at lines 56-63 takes that line
  first. The model keeps it in the same order.
