/**
 * The roadmap view of src/roadmapWebviewPanel.ts: the board flattened to one row
 * per task, column by column, each row carrying its column's title as status and
 * a progress figure between 0 and 1. JavaScript numbers are modelled as `real`.
 */
module Roadmap {
  import opened Wrappers
  import opened JsString
  import opened KanbanModel

  /** One row of the roadmap: a task, the title of its column and its progress. */
  datatype RoadmapTask = RoadmapTask(
    id: string,
    title: string,
    status: string,
    milestone: Option<string>,
    startDate: Option<string>,
    dueDate: Option<string>,
    completedDate: Option<string>,
    updatedDate: Option<string>,
    progress: real,
    detailPath: Option<string>)

  /** `steps.filter(step => step.completed).length`. */
  function CompletedSteps(steps: seq<Step>): (n: nat)
    ensures n <= |steps|
  {
    if steps == [] then 0
    else (if steps[0].completed then 1 else 0) + CompletedSteps(steps[1..])
  }

  /** A status counts as done when it reads "done" in any case, padded or not. */
  predicate IsDoneStatus(status: string) {
    ToLowerAscii(Trim(status)) == "done"
  }

  /**
   * `_calculateProgress(task, status)`: 1 in a done column, otherwise the share of
   * completed steps, and 0 for a task without steps.
   */
  function CalculateProgress(t: Task, status: string): (r: real)
    ensures 0.0 <= r <= 1.0
  {
    if IsDoneStatus(status) then 1.0
    else if t.steps.Some? && |t.steps.value| > 0 then
      RatioBounded(CompletedSteps(t.steps.value), |t.steps.value|);
      (CompletedSteps(t.steps.value) as real) / (|t.steps.value| as real)
    else 0.0
  }

  /** A share of a whole is between 0 and 1. */
  lemma RatioBounded(part: nat, whole: nat)
    requires part <= whole && whole > 0
    ensures 0.0 <= (part as real) / (whole as real) <= 1.0
  {
    var r := (part as real) / (whole as real);
    assert r * (whole as real) == part as real;
  }

  /** The row `_buildRoadmapTasks` pushes for a task of a column titled `status`. */
  function RowOf(t: Task, status: string): RoadmapTask {
    RoadmapTask(t.id, t.title, status, t.milestone, t.startDate, t.dueDate,
                t.completed, t.updated, CalculateProgress(t, status), t.detailPath)
  }

  /** The rows of the tasks of a column titled `status`, in the column's order. */
  function TaskRows(tasks: seq<Task>, status: string): seq<RoadmapTask> {
    if tasks == [] then [] else [RowOf(tasks[0], status)] + TaskRows(tasks[1..], status)
  }

  function ColumnRows(c: Column): seq<RoadmapTask> {
    TaskRows(c.tasks, c.title)
  }

  lemma {:induction false} TaskRowsAppend(tasks: seq<Task>, t: Task, status: string)
    ensures TaskRows(tasks + [t], status) == TaskRows(tasks, status) + [RowOf(t, status)]
  {
    if tasks == [] {
      assert [t][1..] == [];
    } else {
      SnocTail(tasks, t);
      assert TaskRows(tasks + [t], status) == [RowOf(tasks[0], status)] + TaskRows(tasks[1..] + [t], status);
      TaskRowsAppend(tasks[1..], t, status);
    }
  }

  lemma SnocTail<T>(s: seq<T>, x: T)
    requires s != []
    ensures (s + [x])[0] == s[0] && (s + [x])[1..] == s[1..] + [x]
  {
  }

  /** The rows of the roadmap: the rows of each column, column after column. */
  function RoadmapRows(columns: seq<Column>): seq<RoadmapTask> {
    if columns == [] then [] else ColumnRows(columns[0]) + RoadmapRows(columns[1..])
  }

  lemma {:induction false} RoadmapRowsAppend(a: seq<Column>, c: Column)
    ensures RoadmapRows(a + [c]) == RoadmapRows(a) + ColumnRows(c)
  {
    if a == [] {
      assert [c][1..] == [];
    } else {
      SnocTail(a, c);
      assert RoadmapRows(a + [c]) == ColumnRows(a[0]) + RoadmapRows(a[1..] + [c]);
      RoadmapRowsAppend(a[1..], c);
    }
  }

  /** Pushing the row of task `i` extends the rows of the tasks before it. */
  lemma RowPushed(done: seq<RoadmapTask>, tasks: seq<Task>, i: nat, status: string)
    requires i < |tasks|
    ensures done + TaskRows(tasks[..i], status) + [RowOf(tasks[i], status)]
            == done + TaskRows(tasks[..i + 1], status)
  {
    assert tasks[..i + 1] == tasks[..i] + [tasks[i]];
    TaskRowsAppend(tasks[..i], tasks[i], status);
  }

  /** After the last task of column `c`, the rows are those of the columns up to `c`. */
  lemma ColumnDone(columns: seq<Column>, c: nat)
    requires c < |columns|
    ensures RoadmapRows(columns[..c]) + TaskRows(columns[c].tasks[..|columns[c].tasks|], columns[c].title)
            == RoadmapRows(columns[..c + 1])
  {
    assert columns[c].tasks[..|columns[c].tasks|] == columns[c].tasks;
    assert columns[..c + 1] == columns[..c] + [columns[c]];
    RoadmapRowsAppend(columns[..c], columns[c]);
  }

  /** `_buildRoadmapTasks(board)`: the two nested loops over columns and their tasks. */
  method BuildRoadmapTasks(board: Board) returns (tasks: seq<RoadmapTask>)
    ensures tasks == RoadmapRows(board.columns)
  {
    tasks := [];
    for c := 0 to |board.columns|
      invariant tasks == RoadmapRows(board.columns[..c])
    {
      var column := board.columns[c];
      for i := 0 to |column.tasks|
        invariant tasks == RoadmapRows(board.columns[..c]) + TaskRows(column.tasks[..i], column.title)
      {
        var task := column.tasks[i];
        var row := RoadmapTask(task.id, task.title, column.title, task.milestone, task.startDate,
                               task.dueDate, task.completed, task.updated,
                               CalculateProgress(task, column.title), task.detailPath);
        assert row == RowOf(task, column.title);
        RowPushed(RoadmapRows(board.columns[..c]), column.tasks, i, column.title);
        tasks := tasks + [row];
      }
      ColumnDone(board.columns, c);
    }
    assert board.columns[..|board.columns|] == board.columns;
  }
}

/** What the roadmap promises: one row per task in board order, progress that reads right. */
module RoadmapProperties {
  import opened Wrappers
  import opened JsString
  import opened KanbanModel
  import opened Roadmap

  lemma {:induction false} TaskRowsSpec(tasks: seq<Task>, status: string)
    ensures |TaskRows(tasks, status)| == |tasks|
    ensures forall i :: 0 <= i < |tasks| ==> TaskRows(tasks, status)[i] == RowOf(tasks[i], status)
  {
    TaskRowsLength(tasks, status);
    forall k | 0 <= k < |tasks| ensures TaskRows(tasks, status)[k] == RowOf(tasks[k], status) {
      TaskRowsAt(tasks, k, status);
    }
  }

  lemma {:induction false} TaskRowsLength(tasks: seq<Task>, status: string)
    ensures |TaskRows(tasks, status)| == |tasks|
  {
    if tasks != [] {
      TaskRowsLength(tasks[1..], status);
    }
  }

  lemma {:induction false} TaskRowsAt(tasks: seq<Task>, k: nat, status: string)
    requires k < |tasks|
    ensures |TaskRows(tasks, status)| == |tasks| && TaskRows(tasks, status)[k] == RowOf(tasks[k], status)
  {
    var head := [RowOf(tasks[0], status)];
    var rest := TaskRows(tasks[1..], status);
    assert TaskRows(tasks, status) == head + rest;
    TaskRowsLength(tasks[1..], status);
    if k > 0 {
      TaskRowsAt(tasks[1..], k - 1, status);
      assert (head + rest)[k] == rest[k - 1];
      assert tasks[1..][k - 1] == tasks[k];
    }
  }

  /**
   * The roadmap has one row per task of the board, in board order: row `k` shows
   * task `k` of `AllTasks`, under the title of a column that holds that task.
   */
  lemma {:induction false} RoadmapRowsSpec(columns: seq<Column>)
    ensures var rows := RoadmapRows(columns);
      && |rows| == |AllTasks(columns)|
      && forall k :: 0 <= k < |rows| ==>
           && rows[k] == RowOf(AllTasks(columns)[k], rows[k].status)
           && exists c :: 0 <= c < |columns| && columns[c].title == rows[k].status && AllTasks(columns)[k] in columns[c].tasks
  {
    if columns != [] {
      var head := columns[0];
      var rows := RoadmapRows(columns);
      var rest := RoadmapRows(columns[1..]);
      TaskRowsSpec(head.tasks, head.title);
      RoadmapRowsSpec(columns[1..]);
      assert rows == TaskRows(head.tasks, head.title) + rest;
      assert AllTasks(columns) == head.tasks + AllTasks(columns[1..]);
      forall k | 0 <= k < |rows|
        ensures rows[k] == RowOf(AllTasks(columns)[k], rows[k].status)
        ensures exists c :: 0 <= c < |columns| && columns[c].title == rows[k].status && AllTasks(columns)[k] in columns[c].tasks
      {
        var n := |head.tasks|;
        if k < n {
          assert rows[k] == RowOf(head.tasks[k], head.title);
          assert AllTasks(columns)[k] == head.tasks[k];
          assert columns[0].title == rows[k].status;
        } else {
          assert rows[k] == rest[k - n];
          assert AllTasks(columns)[k] == AllTasks(columns[1..])[k - n];
          var c :| 0 <= c < |columns[1..]| && columns[1..][c].title == rest[k - n].status
                   && AllTasks(columns[1..])[k - n] in columns[1..][c].tasks;
          assert columns[c + 1] == columns[1..][c];
        }
      }
    }
  }

  /** Every row's progress is a share between 0 and 1. */
  lemma ProgressBounded(columns: seq<Column>)
    ensures forall r :: r in RoadmapRows(columns) ==> 0.0 <= r.progress <= 1.0
  {
    RoadmapRowsSpec(columns);
  }

  lemma {:induction false} CompletedStepsAll(steps: seq<Step>)
    ensures CompletedSteps(steps) == |steps| <==> forall i :: 0 <= i < |steps| ==> steps[i].completed
  {
    if steps != [] {
      CompletedStepsAll(steps[1..]);
      assert forall i :: 1 <= i < |steps| ==> steps[i] == steps[1..][i - 1];
    }
  }

  lemma {:induction false} CompletedStepsNone(steps: seq<Step>)
    ensures CompletedSteps(steps) == 0 <==> forall i :: 0 <= i < |steps| ==> !steps[i].completed
  {
    if steps != [] {
      CompletedStepsNone(steps[1..]);
      assert forall i :: 1 <= i < |steps| ==> steps[i] == steps[1..][i - 1];
    }
  }

  /** A task shows full progress exactly in a done column or when it has steps, all completed. */
  lemma ProgressFull(t: Task, status: string)
    ensures CalculateProgress(t, status) == 1.0
            <==> IsDoneStatus(status)
                 || (t.steps.Some? && |t.steps.value| > 0 && forall i :: 0 <= i < |t.steps.value| ==> t.steps.value[i].completed)
  {
    if !IsDoneStatus(status) && t.steps.Some? && |t.steps.value| > 0 {
      CompletedStepsAll(t.steps.value);
      RatioOne(CompletedSteps(t.steps.value), |t.steps.value|);
    }
  }

  /** A share is the whole exactly when the part is the whole. */
  lemma RatioOne(part: nat, whole: nat)
    requires part <= whole && whole > 0
    ensures (part as real) / (whole as real) == 1.0 <==> part == whole
  {
    var r := (part as real) / (whole as real);
    assert r * (whole as real) == part as real;
  }

  /** A task shows no progress exactly outside a done column when none of its steps is completed. */
  lemma ProgressNone(t: Task, status: string)
    ensures CalculateProgress(t, status) == 0.0
            <==> !IsDoneStatus(status)
                 && (t.steps.None? || forall i :: 0 <= i < |t.steps.value| ==> !t.steps.value[i].completed)
  {
    if !IsDoneStatus(status) && t.steps.Some? && |t.steps.value| > 0 {
      CompletedStepsNone(t.steps.value);
      RatioZero(CompletedSteps(t.steps.value), |t.steps.value|);
    }
  }

  /** A share is nothing exactly when the part is nothing. */
  lemma RatioZero(part: nat, whole: nat)
    requires whole > 0
    ensures (part as real) / (whole as real) == 0.0 <==> part == 0
  {
    var r := (part as real) / (whole as real);
    assert r * (whole as real) == part as real;
  }
}
