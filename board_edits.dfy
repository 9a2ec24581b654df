/**
 * The board edits of src/kanbanWebviewPanel.ts. Each edit is a function from the
 * board before to the board after (`TaskMoved`, `TaskDeleted`, ...); the class
 * `KanbanPanel` holds the panel's board and its methods replace it by the edited
 * board. Ids that the source draws from `Math.random` are parameters, and saving
 * the board afterwards is not part of this model.
 */
module BoardEdits {
  import opened Wrappers
  import opened JsString
  import opened KanbanModel

  // ---------------------------------------------------------------------------
  // Lookups
  // ---------------------------------------------------------------------------

  /**
   * `find` / `findIndex` by id: the index of the first element whose id is `id`,
   * `None` where JavaScript gives `undefined` or -1.
   */
  function FirstWithId<T>(s: seq<T>, idOf: T -> string, id: string): (r: Option<nat>)
    ensures r.Some? ==> r.value < |s| && idOf(s[r.value]) == id
    ensures r.Some? ==> forall k :: 0 <= k < r.value ==> idOf(s[k]) != id
    ensures r.None? ==> forall k :: 0 <= k < |s| ==> idOf(s[k]) != id
  {
    if s == [] then None
    else if idOf(s[0]) == id then Some(0)
    else
      match FirstWithId(s[1..], idOf, id)
      case None => None
      case Some(i) => Some(i + 1)
  }

  function ColumnId(c: Column): string { c.id }

  function TaskId(t: Task): string { t.id }

  /** `findColumn(columnId)`: the index of the first column with that id. */
  function ColumnIndex(columns: seq<Column>, id: string): Option<nat> {
    FirstWithId(columns, ColumnId, id)
  }

  /** `tasks.findIndex(task => task.id === taskId)`, with `None` for -1. */
  function TaskIndex(tasks: seq<Task>, id: string): Option<nat> {
    FirstWithId(tasks, TaskId, id)
  }

  /** Where `findTask` found a task: the column's index and the task's index in it. */
  datatype TaskRef = TaskRef(column: nat, index: nat)

  /** `findTask(columnId, taskId)`: the first task with that id in the first column with that id. */
  function FindTask(b: Board, columnId: string, taskId: string): (r: Option<TaskRef>)
    ensures r.Some? ==> r.value.column < |b.columns| && r.value.index < |b.columns[r.value.column].tasks|
  {
    match ColumnIndex(b.columns, columnId)
    case None => None
    case Some(c) =>
      match TaskIndex(b.columns[c].tasks, taskId)
      case None => None
      case Some(i) => Some(TaskRef(c, i))
  }

  // ---------------------------------------------------------------------------
  // Sequence surgery with `splice`
  // ---------------------------------------------------------------------------

  /** The start `splice(start, ...)` uses on an array of length `len`: negative counts from the end. */
  function SpliceStart(len: nat, start: int): (r: nat)
    ensures r <= len
    ensures 0 <= start <= len ==> r == start
  {
    if start < 0 then (if len + start < 0 then 0 else len + start)
    else if start > len then len
    else start
  }

  /** `s.splice(i, 1)`: the element at `i` taken out. */
  function RemoveAt<T>(s: seq<T>, i: nat): (r: seq<T>)
    requires i < |s|
    ensures |r| == |s| - 1
    ensures multiset(r) + multiset{s[i]} == multiset(s)
    ensures forall k :: 0 <= k < i ==> r[k] == s[k]
    ensures forall k :: i <= k < |r| ==> r[k] == s[k + 1]
  {
    assert s == s[..i] + [s[i]] + s[i + 1..];
    s[..i] + s[i + 1..]
  }

  /** `s.splice(i, 0, x)`: `x` put in at `i`. */
  function InsertAt<T>(s: seq<T>, i: nat, x: T): (r: seq<T>)
    requires i <= |s|
    ensures |r| == |s| + 1
    ensures multiset(r) == multiset(s) + multiset{x}
    ensures r[i] == x
    ensures forall k :: 0 <= k < i ==> r[k] == s[k]
    ensures forall k :: i < k < |r| ==> r[k] == s[k - 1]
  {
    assert s == s[..i] + s[i..];
    s[..i] + [x] + s[i..]
  }

  /** The columns with the tasks of column `k` replaced. */
  function WithTasks(columns: seq<Column>, k: nat, tasks: seq<Task>): seq<Column>
    requires k < |columns|
  {
    columns[k := columns[k].(tasks := tasks)]
  }

  // ---------------------------------------------------------------------------
  // The edits
  // ---------------------------------------------------------------------------

  /**
   * `moveTask(taskId, fromColumnId, toColumnId, newIndex)`: the task is taken out
   * of its column and put in at `newIndex` of the target column, which may be the
   * same column.
   */
  function TaskMoved(b: Board, taskId: string, fromColumnId: string, toColumnId: string, newIndex: int): Board {
    var from := ColumnIndex(b.columns, fromColumnId);
    var to := ColumnIndex(b.columns, toColumnId);
    if from.None? || to.None? then b
    else
      match TaskIndex(b.columns[from.value].tasks, taskId)
      case None => b
      case Some(i) =>
        var task := b.columns[from.value].tasks[i];
        var taken := WithTasks(b.columns, from.value, RemoveAt(b.columns[from.value].tasks, i));
        var target := taken[to.value].tasks;
        b.(columns := WithTasks(taken, to.value, InsertAt(target, SpliceStart(|target|, newIndex), task)))
  }

  /** `deleteTask(taskId, columnId)`: the first task with that id goes from that column. */
  function TaskDeleted(b: Board, taskId: string, columnId: string): Board {
    match FindTask(b, columnId, taskId)
    case None => b
    case Some(ref) =>
      b.(columns := WithTasks(b.columns, ref.column, RemoveAt(b.columns[ref.column].tasks, ref.index)))
  }

  /** The task a reference points at. */
  function TaskAt(b: Board, ref: TaskRef): Task
    requires ref.column < |b.columns| && ref.index < |b.columns[ref.column].tasks|
  {
    b.columns[ref.column].tasks[ref.index]
  }

  /** The board with the task a reference points at replaced. */
  function WithTask(b: Board, ref: TaskRef, t: Task): Board
    requires ref.column < |b.columns| && ref.index < |b.columns[ref.column].tasks|
  {
    b.(columns := WithTasks(b.columns, ref.column, b.columns[ref.column].tasks[ref.index := t]))
  }

  /** `updateTaskStep(taskId, columnId, stepIndex, completed)`. */
  function StepUpdated(b: Board, taskId: string, columnId: string, stepIndex: int, completed: bool): Board {
    match FindTask(b, columnId, taskId)
    case None => b
    case Some(ref) =>
      var t := TaskAt(b, ref);
      if t.steps.None? || stepIndex < 0 || stepIndex >= |t.steps.value| then b
      else
        var steps := t.steps.value;
        WithTask(b, ref, t.(steps := Some(steps[stepIndex := steps[stepIndex].(completed := completed)])))
  }

  /** `newOrder.filter(i => 0 <= i < |orig|).map(i => orig[i])`. */
  function Reordered<T>(orig: seq<T>, order: seq<int>): seq<T> {
    if order == [] then []
    else (if 0 <= order[0] < |orig| then [orig[order[0]]] else []) + Reordered(orig, order[1..])
  }

  /** `reorderTaskSteps(taskId, columnId, newOrder)`. */
  function StepsReordered(b: Board, taskId: string, columnId: string, newOrder: seq<int>): Board {
    match FindTask(b, columnId, taskId)
    case None => b
    case Some(ref) =>
      var t := TaskAt(b, ref);
      if t.steps.None? then b
      else WithTask(b, ref, t.(steps := Some(Reordered(t.steps.value, newOrder))))
  }

  /** `addColumn(title)`, with the id `Math.random` would give passed in. */
  function ColumnAdded(b: Board, id: string, title: string): Board {
    b.(columns := b.columns + [Column(id, title, [], false)])
  }

  /**
   * `moveColumn` takes out a column that exists: an index past the end would put
   * `undefined` on the board.
   */
  predicate MoveColumnDefined(b: Board, fromIndex: int, toIndex: int) {
    fromIndex == toIndex || SpliceStart(|b.columns|, fromIndex) < |b.columns|
  }

  /** `moveColumn(fromIndex, toIndex)`. */
  function ColumnMoved(b: Board, fromIndex: int, toIndex: int): Board
    requires MoveColumnDefined(b, fromIndex, toIndex)
  {
    if fromIndex == toIndex then b
    else
      var i := SpliceStart(|b.columns|, fromIndex);
      var rest := RemoveAt(b.columns, i);
      b.(columns := InsertAt(rest, SpliceStart(|rest|, toIndex), b.columns[i]))
  }

  /** `toggleColumnArchive(columnId, archived)`. */
  function ArchiveSet(b: Board, columnId: string, archived: bool): Board {
    match ColumnIndex(b.columns, columnId)
    case None => b
    case Some(c) => b.(columns := b.columns[c := b.columns[c].(archived := archived)])
  }

  /** The form `editTask` receives; absent fields are `None`. */
  datatype TaskData = TaskData(
    title: string,
    description: Option<string>,
    tags: Option<seq<string>>,
    priority: Option<Priority>,
    workload: Option<Workload>,
    defaultExpanded: Option<bool>,
    steps: Option<seq<Step>>,
    startDate: Option<string>,
    dueDate: Option<string>)

  /** A date from the form: the trimmed text when it is not blank, no date otherwise. */
  function NormalizedDate(input: Option<string>): (r: Option<string>)
    ensures r.Some? <==> input.Some? && Trim(input.value) != ""
    ensures r.Some? ==> r.value == Trim(input.value) && r.value != "" && IsTrimmed(r.value)
  {
    if input.Some? && Trim(input.value) != "" then Some(Trim(input.value)) else None
  }

  /** The task after `editTask` wrote the form into it. */
  function Edited(t: Task, data: TaskData): Task {
    t.(title := data.title,
       description := data.description,
       tags := Some(data.tags.GetOr([])),
       priority := data.priority,
       workload := data.workload,
       defaultExpanded := data.defaultExpanded,
       steps := Some(data.steps.GetOr([])),
       startDate := NormalizedDate(data.startDate),
       dueDate := NormalizedDate(data.dueDate))
  }

  /** `editTask(taskId, columnId, taskData)`. */
  function TaskEdited(b: Board, taskId: string, columnId: string, data: TaskData): Board {
    match FindTask(b, columnId, taskId)
    case None => b
    case Some(ref) => WithTask(b, ref, Edited(TaskAt(b, ref), data))
  }

  // ---------------------------------------------------------------------------
  // The panel
  // ---------------------------------------------------------------------------

  /** The webview panel's board; every edit does nothing while no board is loaded. */
  class KanbanPanel {
    var board: Option<Board>

    constructor(board: Option<Board>)
      ensures this.board == board
    {
      this.board := board;
    }

    method MoveTask(taskId: string, fromColumnId: string, toColumnId: string, newIndex: int)
      modifies this
      ensures old(board).None? ==> board == old(board)
      ensures old(board).Some? ==> board == Some(TaskMoved(old(board).value, taskId, fromColumnId, toColumnId, newIndex))
    {
      if board.Some? {
        board := Some(TaskMoved(board.value, taskId, fromColumnId, toColumnId, newIndex));
      }
    }

    method DeleteTask(taskId: string, columnId: string)
      modifies this
      ensures old(board).None? ==> board == old(board)
      ensures old(board).Some? ==> board == Some(TaskDeleted(old(board).value, taskId, columnId))
    {
      if board.Some? {
        board := Some(TaskDeleted(board.value, taskId, columnId));
      }
    }

    method EditTask(taskId: string, columnId: string, data: TaskData)
      modifies this
      ensures old(board).None? ==> board == old(board)
      ensures old(board).Some? ==> board == Some(TaskEdited(old(board).value, taskId, columnId, data))
    {
      if board.Some? {
        board := Some(TaskEdited(board.value, taskId, columnId, data));
      }
    }

    method UpdateTaskStep(taskId: string, columnId: string, stepIndex: int, completed: bool)
      modifies this
      ensures old(board).None? ==> board == old(board)
      ensures old(board).Some? ==> board == Some(StepUpdated(old(board).value, taskId, columnId, stepIndex, completed))
    {
      if board.Some? {
        board := Some(StepUpdated(board.value, taskId, columnId, stepIndex, completed));
      }
    }

    method ReorderTaskSteps(taskId: string, columnId: string, newOrder: seq<int>)
      modifies this
      ensures old(board).None? ==> board == old(board)
      ensures old(board).Some? ==> board == Some(StepsReordered(old(board).value, taskId, columnId, newOrder))
    {
      if board.Some? {
        board := Some(StepsReordered(board.value, taskId, columnId, newOrder));
      }
    }

    method AddColumn(id: string, title: string)
      modifies this
      ensures old(board).None? ==> board == old(board)
      ensures old(board).Some? ==> board == Some(ColumnAdded(old(board).value, id, title))
    {
      if board.Some? {
        board := Some(ColumnAdded(board.value, id, title));
      }
    }

    method MoveColumn(fromIndex: int, toIndex: int)
      requires board.Some? ==> MoveColumnDefined(board.value, fromIndex, toIndex)
      modifies this
      ensures old(board).None? ==> board == old(board)
      ensures old(board).Some? ==> board == Some(ColumnMoved(old(board).value, fromIndex, toIndex))
    {
      if board.Some? {
        board := Some(ColumnMoved(board.value, fromIndex, toIndex));
      }
    }

    method ToggleColumnArchive(columnId: string, archived: bool)
      modifies this
      ensures old(board).None? ==> board == old(board)
      ensures old(board).Some? ==> board == Some(ArchiveSet(old(board).value, columnId, archived))
    {
      if board.Some? {
        board := Some(ArchiveSet(board.value, columnId, archived));
      }
    }
  }
}
