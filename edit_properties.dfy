/**
 * What the board edits of src/kanbanWebviewPanel.ts promise: lookups find the
 * first match, edits that find nothing change nothing, moves keep every task on
 * the board, and each edit changes only what it names.
 */
module EditProperties {
  import opened Wrappers
  import opened JsString
  import opened KanbanModel
  import Dialect
  import MarkdownGenerator
  import opened BoardEdits

  // ---------------------------------------------------------------------------
  // Lookups
  // ---------------------------------------------------------------------------

  /**
   * `findTask` finds the first task with the id in the first column with the
   * id; it finds nothing when no column has the id or that column has no such task.
   */
  lemma FindTaskSpec(b: Board, columnId: string, taskId: string)
    ensures var r := FindTask(b, columnId, taskId);
      r.Some? ==>
        && b.columns[r.value.column].id == columnId
        && (forall k :: 0 <= k < r.value.column ==> b.columns[k].id != columnId)
        && TaskAt(b, r.value).id == taskId
        && (forall k :: 0 <= k < r.value.index ==> b.columns[r.value.column].tasks[k].id != taskId)
    ensures var r := FindTask(b, columnId, taskId);
      r.None? ==>
        || (forall k :: 0 <= k < |b.columns| ==> b.columns[k].id != columnId)
        || (var c := ColumnIndex(b.columns, columnId).value;
            forall k :: 0 <= k < |b.columns[c].tasks| ==> b.columns[c].tasks[k].id != taskId)
  {
  }

  // ---------------------------------------------------------------------------
  // Tasks across the board
  // ---------------------------------------------------------------------------

  /** Replacing one column's tasks replaces them in the list of all tasks. */
  lemma {:induction false} AllTasksWithTasks(columns: seq<Column>, k: nat, tasks: seq<Task>)
    requires k < |columns|
    ensures multiset(AllTasks(WithTasks(columns, k, tasks))) + multiset(columns[k].tasks)
            == multiset(AllTasks(columns)) + multiset(tasks)
  {
    var updated := WithTasks(columns, k, tasks);
    if k == 0 {
      assert updated[1..] == columns[1..];
      assert AllTasks(updated) == tasks + AllTasks(columns[1..]);
    } else {
      var rest := WithTasks(columns[1..], k - 1, tasks);
      assert updated == [columns[0]] + rest;
      assert updated[1..] == rest;
      assert columns[1..][k - 1] == columns[k];
      AllTasksWithTasks(columns[1..], k - 1, tasks);
      var head, removed, added := multiset(columns[0].tasks), multiset(columns[k].tasks), multiset(tasks);
      calc {
        multiset(AllTasks(updated)) + removed;
        (head + multiset(AllTasks(rest))) + removed;
        head + (multiset(AllTasks(rest)) + removed);
        head + (multiset(AllTasks(columns[1..])) + added);
        (head + multiset(AllTasks(columns[1..]))) + added;
        multiset(AllTasks(columns)) + added;
      }
    }
  }

  lemma Cancel<T>(a: multiset<T>, b: multiset<T>, c: multiset<T>)
    requires a + c == b + c
    ensures a == b
  {
    assert forall x :: a[x] == (a + c)[x] - c[x];
  }

  /** Taking a task out of one column and putting it into another keeps the tasks of the board. */
  lemma TransferKeepsTasks(columns: seq<Column>, from: nat, i: nat, to: nat, j: nat)
    requires from < |columns| && i < |columns[from].tasks| && to < |columns|
    requires j <= |WithTasks(columns, from, RemoveAt(columns[from].tasks, i))[to].tasks|
    ensures var taken := WithTasks(columns, from, RemoveAt(columns[from].tasks, i));
      multiset(AllTasks(WithTasks(taken, to, InsertAt(taken[to].tasks, j, columns[from].tasks[i]))))
      == multiset(AllTasks(columns))
  {
    var source := columns[from].tasks;
    var x := multiset{source[i]};
    var removed := RemoveAt(source, i);
    var taken := WithTasks(columns, from, removed);
    var inserted := InsertAt(taken[to].tasks, j, source[i]);
    var final := WithTasks(taken, to, inserted);
    AllTasksWithTasks(columns, from, removed);
    AllTasksWithTasks(taken, to, inserted);
    calc {
      multiset(AllTasks(final)) + multiset(taken[to].tasks);
      multiset(AllTasks(taken)) + multiset(inserted);
      multiset(AllTasks(taken)) + (multiset(taken[to].tasks) + x);
      (multiset(AllTasks(taken)) + x) + multiset(taken[to].tasks);
    }
    Cancel(multiset(AllTasks(final)), multiset(AllTasks(taken)) + x, multiset(taken[to].tasks));
    calc {
      (multiset(AllTasks(taken)) + x) + multiset(removed);
      multiset(AllTasks(taken)) + (multiset(removed) + x);
      multiset(AllTasks(taken)) + multiset(source);
      multiset(AllTasks(columns)) + multiset(removed);
    }
    Cancel(multiset(AllTasks(taken)) + x, multiset(AllTasks(columns)), multiset(removed));
  }

  /** The columns apart from their tasks: what an edit of tasks leaves alone. */
  predicate SameLayout(a: seq<Column>, b: seq<Column>) {
    |a| == |b| && forall k :: 0 <= k < |a| ==> a[k].(tasks := []) == b[k].(tasks := [])
  }

  // ---------------------------------------------------------------------------
  // moveTask
  // ---------------------------------------------------------------------------

  /** Moving a task when a column or the task is missing changes nothing. */
  lemma TaskMovedMissing(b: Board, taskId: string, fromColumnId: string, toColumnId: string, newIndex: int)
    requires || ColumnIndex(b.columns, fromColumnId).None?
             || ColumnIndex(b.columns, toColumnId).None?
             || TaskIndex(b.columns[ColumnIndex(b.columns, fromColumnId).value].tasks, taskId).None?
    ensures TaskMoved(b, taskId, fromColumnId, toColumnId, newIndex) == b
  {
  }

  /** Moving a task keeps every task on the board, each as often as before. */
  lemma TaskMovedKeepsTasks(b: Board, taskId: string, fromColumnId: string, toColumnId: string, newIndex: int)
    ensures multiset(AllTasks(TaskMoved(b, taskId, fromColumnId, toColumnId, newIndex).columns))
            == multiset(AllTasks(b.columns))
  {
    var from := ColumnIndex(b.columns, fromColumnId);
    var to := ColumnIndex(b.columns, toColumnId);
    if from.Some? && to.Some? && TaskIndex(b.columns[from.value].tasks, taskId).Some? {
      var i := TaskIndex(b.columns[from.value].tasks, taskId).value;
      var taken := WithTasks(b.columns, from.value, RemoveAt(b.columns[from.value].tasks, i));
      TransferKeepsTasks(b.columns, from.value, i, to.value, SpliceStart(|taken[to.value].tasks|, newIndex));
    }
  }

  /**
   * The moved task stands at `newIndex` of the target column, clamped as `splice`
   * clamps it. The source column has lost exactly that task, and taking it out of
   * the target again gives back the target's tasks before the insertion, in order.
   */
  lemma TaskMovedPlaces(b: Board, taskId: string, fromColumnId: string, toColumnId: string, newIndex: int)
    requires ColumnIndex(b.columns, fromColumnId).Some? && ColumnIndex(b.columns, toColumnId).Some?
    requires TaskIndex(b.columns[ColumnIndex(b.columns, fromColumnId).value].tasks, taskId).Some?
    ensures var from := ColumnIndex(b.columns, fromColumnId).value;
      var to := ColumnIndex(b.columns, toColumnId).value;
      var i := TaskIndex(b.columns[from].tasks, taskId).value;
      var len := |b.columns[to].tasks| - (if from == to then 1 else 0);
      var moved := TaskMoved(b, taskId, fromColumnId, toColumnId, newIndex);
      && |moved.columns[to].tasks| == len + 1
      && moved.columns[to].tasks[SpliceStart(len, newIndex)] == b.columns[from].tasks[i]
    ensures var from := ColumnIndex(b.columns, fromColumnId).value;
      var to := ColumnIndex(b.columns, toColumnId).value;
      var i := TaskIndex(b.columns[from].tasks, taskId).value;
      var source := b.columns[from].tasks;
      var len := |b.columns[to].tasks| - (if from == to then 1 else 0);
      var moved := TaskMoved(b, taskId, fromColumnId, toColumnId, newIndex);
      && (from != to ==> moved.columns[from].tasks == source[..i] + source[i + 1..])
      && RemoveAt(moved.columns[to].tasks, SpliceStart(len, newIndex))
         == (if from == to then source[..i] + source[i + 1..] else b.columns[to].tasks)
  {
    var from := ColumnIndex(b.columns, fromColumnId).value;
    var to := ColumnIndex(b.columns, toColumnId).value;
    var i := TaskIndex(b.columns[from].tasks, taskId).value;
    TaskMovedColumns(b, taskId, fromColumnId, toColumnId, newIndex, from, to, i);
    PlacedColumns(b.columns, from, to, i, newIndex);
  }

  /** With the two columns and the task found, the move takes task `i` out of `from` and splices it into `to`. */
  lemma TaskMovedColumns(b: Board, taskId: string, fromColumnId: string, toColumnId: string, newIndex: int,
                         from: nat, to: nat, i: nat)
    requires ColumnIndex(b.columns, fromColumnId) == Some(from) && ColumnIndex(b.columns, toColumnId) == Some(to)
    requires from < |b.columns| && TaskIndex(b.columns[from].tasks, taskId) == Some(i)
    ensures to < |b.columns| && i < |b.columns[from].tasks|
    ensures var taken := WithTasks(b.columns, from, RemoveAt(b.columns[from].tasks, i));
      var target := taken[to].tasks;
      TaskMoved(b, taskId, fromColumnId, toColumnId, newIndex).columns
      == WithTasks(taken, to, InsertAt(target, SpliceStart(|target|, newIndex), b.columns[from].tasks[i]))
  {
  }

  /** The columns after task `i` of column `from` is placed in column `to`, as `TaskMovedPlaces` states them. */
  lemma PlacedColumns(columns: seq<Column>, from: nat, to: nat, i: nat, newIndex: int)
    requires from < |columns| && to < |columns| && i < |columns[from].tasks|
    ensures var source := columns[from].tasks;
      var taken := WithTasks(columns, from, RemoveAt(source, i));
      var target := taken[to].tasks;
      var r := WithTasks(taken, to, InsertAt(target, SpliceStart(|target|, newIndex), source[i]));
      var len := |columns[to].tasks| - (if from == to then 1 else 0);
      && |target| == len
      && |r[to].tasks| == len + 1
      && r[to].tasks[SpliceStart(len, newIndex)] == source[i]
      && (from != to ==> r[from].tasks == source[..i] + source[i + 1..])
      && RemoveAt(r[to].tasks, SpliceStart(len, newIndex))
         == (if from == to then source[..i] + source[i + 1..] else columns[to].tasks)
  {
    var source := columns[from].tasks;
    var taken := WithTasks(columns, from, RemoveAt(source, i));
    var target := taken[to].tasks;
    var pos := SpliceStart(|target|, newIndex);
    RemovedLength(columns, from, to, i);
    PlacedAt(taken, to, pos, source[i]);
    RemoveInserted(target, pos, source[i]);
    TakenTarget(columns, from, to, i);
    if from != to {
      assert taken[from].tasks == source[..i] + source[i + 1..];
    }
  }

  /** After the task is taken out, the target's tasks are the source less the task, or the target unchanged. */
  lemma TakenTarget(columns: seq<Column>, from: nat, to: nat, i: nat)
    requires from < |columns| && to < |columns| && i < |columns[from].tasks|
    ensures WithTasks(columns, from, RemoveAt(columns[from].tasks, i))[to].tasks
            == if from == to then columns[from].tasks[..i] + columns[from].tasks[i + 1..] else columns[to].tasks
  {
  }

  /** Taking out what was just put in at `i` gives the sequence back. */
  lemma RemoveInserted<T>(s: seq<T>, i: nat, x: T)
    requires i <= |s|
    ensures RemoveAt(InsertAt(s, i, x), i) == s
  {
    var r := RemoveAt(InsertAt(s, i, x), i);
    assert forall k :: 0 <= k < |s| ==> r[k] == s[k];
  }

  lemma RemovedLength(columns: seq<Column>, from: nat, to: nat, i: nat)
    requires from < |columns| && to < |columns| && i < |columns[from].tasks|
    ensures |WithTasks(columns, from, RemoveAt(columns[from].tasks, i))[to].tasks|
            == |columns[to].tasks| - (if from == to then 1 else 0)
  {
  }

  lemma PlacedAt(columns: seq<Column>, to: nat, pos: nat, x: Task)
    requires to < |columns| && pos <= |columns[to].tasks|
    ensures var placed := WithTasks(columns, to, InsertAt(columns[to].tasks, pos, x))[to].tasks;
      |placed| == |columns[to].tasks| + 1 && placed[pos] == x
  {
  }

  /** Replacing the tasks of column `k` keeps the layout and the other columns. */
  lemma WithTasksFrame(columns: seq<Column>, k: nat, tasks: seq<Task>)
    requires k < |columns|
    ensures SameLayout(WithTasks(columns, k, tasks), columns)
    ensures forall j :: 0 <= j < |columns| && j != k ==> WithTasks(columns, k, tasks)[j] == columns[j]
  {
  }

  lemma SameLayoutTrans(a: seq<Column>, b: seq<Column>, c: seq<Column>)
    requires SameLayout(a, b) && SameLayout(b, c)
    ensures SameLayout(a, c)
  {
  }

  /** Moving a task touches the two columns involved and no other, and leaves every column's other fields. */
  lemma TaskMovedFrame(b: Board, taskId: string, fromColumnId: string, toColumnId: string, newIndex: int)
    ensures var moved := TaskMoved(b, taskId, fromColumnId, toColumnId, newIndex);
      && moved.title == b.title
      && SameLayout(moved.columns, b.columns)
      && forall k :: 0 <= k < |b.columns| && b.columns[k].id != fromColumnId && b.columns[k].id != toColumnId
           ==> moved.columns[k] == b.columns[k]
  {
    var from := ColumnIndex(b.columns, fromColumnId);
    var to := ColumnIndex(b.columns, toColumnId);
    if from.Some? && to.Some? && TaskIndex(b.columns[from.value].tasks, taskId).Some? {
      var i := TaskIndex(b.columns[from.value].tasks, taskId).value;
      var source := b.columns[from.value].tasks;
      var taken := WithTasks(b.columns, from.value, RemoveAt(source, i));
      var target := taken[to.value].tasks;
      var placed := InsertAt(target, SpliceStart(|target|, newIndex), source[i]);
      WithTasksFrame(b.columns, from.value, RemoveAt(source, i));
      WithTasksFrame(taken, to.value, placed);
      SameLayoutTrans(WithTasks(taken, to.value, placed), taken, b.columns);
    }
  }

  // ---------------------------------------------------------------------------
  // deleteTask
  // ---------------------------------------------------------------------------

  /**
   * Deleting removes exactly the task `findTask` finds: its column keeps the
   * other tasks in their order, every other column stays as it was.
   */
  lemma TaskDeletedSpec(b: Board, taskId: string, columnId: string)
    requires FindTask(b, columnId, taskId).Some?
    ensures var ref := FindTask(b, columnId, taskId).value;
      var tasks := b.columns[ref.column].tasks;
      var deleted := TaskDeleted(b, taskId, columnId);
      && deleted.title == b.title
      && SameLayout(deleted.columns, b.columns)
      && deleted.columns[ref.column].tasks == tasks[..ref.index] + tasks[ref.index + 1..]
      && (forall k :: 0 <= k < |b.columns| && k != ref.column ==> deleted.columns[k] == b.columns[k])
      && multiset(AllTasks(deleted.columns)) + multiset{tasks[ref.index]} == multiset(AllTasks(b.columns))
  {
    var ref := FindTask(b, columnId, taskId).value;
    var tasks := b.columns[ref.column].tasks;
    var removed := RemoveAt(tasks, ref.index);
    assert TaskDeleted(b, taskId, columnId).columns == WithTasks(b.columns, ref.column, removed);
    WithTasksFrame(b.columns, ref.column, removed);
    RemovedTasks(b.columns, ref.column, ref.index);
  }

  /** Taking task `i` out of column `k` takes exactly that task out of the board. */
  lemma RemovedTasks(columns: seq<Column>, k: nat, i: nat)
    requires k < |columns| && i < |columns[k].tasks|
    ensures var tasks := columns[k].tasks;
      var removed := RemoveAt(tasks, i);
      && removed == tasks[..i] + tasks[i + 1..]
      && multiset(AllTasks(WithTasks(columns, k, removed))) + multiset{tasks[i]} == multiset(AllTasks(columns))
  {
    var tasks := columns[k].tasks;
    var removed := RemoveAt(tasks, i);
    var deleted := WithTasks(columns, k, removed);
    var x := multiset{tasks[i]};
    AllTasksWithTasks(columns, k, removed);
    calc {
      (multiset(AllTasks(deleted)) + x) + multiset(removed);
      multiset(AllTasks(deleted)) + (multiset(removed) + x);
      multiset(AllTasks(deleted)) + multiset(tasks);
      multiset(AllTasks(columns)) + multiset(removed);
    }
    Cancel(multiset(AllTasks(deleted)) + x, multiset(AllTasks(columns)), multiset(removed));
  }

  /** Deleting a task that is not there changes nothing. */
  lemma TaskDeletedMissing(b: Board, taskId: string, columnId: string)
    requires FindTask(b, columnId, taskId).None?
    ensures TaskDeleted(b, taskId, columnId) == b
  {
  }

  // ---------------------------------------------------------------------------
  // Task updates
  // ---------------------------------------------------------------------------

  /**
   * `r` differs from `b` at most in the task at `ref`: the title, the columns'
   * own fields, the number of tasks, every other task and every other column
   * are those of `b`.
   */
  predicate OnlyTaskChanged(r: Board, b: Board, ref: TaskRef) {
    && r.title == b.title
    && ref.column < |b.columns|
    && SameLayout(r.columns, b.columns)
    && |r.columns[ref.column].tasks| == |b.columns[ref.column].tasks|
    && (forall k :: 0 <= k < |b.columns| && k != ref.column ==> r.columns[k] == b.columns[k])
    && (forall i :: 0 <= i < |b.columns[ref.column].tasks| && i != ref.index
          ==> r.columns[ref.column].tasks[i] == b.columns[ref.column].tasks[i])
  }

  /** An edit of the task at `ref` that leaves the board's other tasks and columns alone. */
  lemma WithTaskFrame(b: Board, ref: TaskRef, t: Task)
    requires ref.column < |b.columns| && ref.index < |b.columns[ref.column].tasks|
    ensures TaskAt(WithTask(b, ref, t), ref) == t
    ensures OnlyTaskChanged(WithTask(b, ref, t), b, ref)
  {
  }

  /**
   * `updateTaskStep` sets the `completed` flag of one step of the task found, and
   * changes nothing else; a missing task, a task without steps or an index out of
   * range leave the board as it was.
   */
  lemma StepUpdatedSpec(b: Board, taskId: string, columnId: string, stepIndex: int, completed: bool)
    ensures var r := StepUpdated(b, taskId, columnId, stepIndex, completed);
      var ref := FindTask(b, columnId, taskId);
      if ref.None? || TaskAt(b, ref.value).steps.None? || !(0 <= stepIndex < |TaskAt(b, ref.value).steps.value|)
      then r == b
      else
        var t := TaskAt(b, ref.value);
        var t' := TaskAt(r, ref.value);
        && t'.(steps := t.steps) == t
        && t'.steps.Some? && |t'.steps.value| == |t.steps.value|
        && t'.steps.value[stepIndex].completed == completed
        && t'.steps.value[stepIndex].text == t.steps.value[stepIndex].text
        && (forall k :: 0 <= k < |t.steps.value| && k != stepIndex ==> t'.steps.value[k] == t.steps.value[k])
        && OnlyTaskChanged(r, b, ref.value)
  {
    var ref := FindTask(b, columnId, taskId);
    if ref.Some? {
      var t := TaskAt(b, ref.value);
      if t.steps.Some? && 0 <= stepIndex < |t.steps.value| {
        var steps := t.steps.value;
        WithTaskFrame(b, ref.value, t.(steps := Some(steps[stepIndex := steps[stepIndex].(completed := completed)])));
      }
    }
  }

  // ---------------------------------------------------------------------------
  // reorderTaskSteps
  // ---------------------------------------------------------------------------

  /** The indices `0, 1, ..., n - 1`. */
  function Indices(n: nat): (r: seq<int>)
    ensures |r| == n
    ensures forall k :: 0 <= k < n ==> r[k] == k
  {
    if n == 0 then [] else Indices(n - 1) + [n - 1]
  }

  /** Every step of the new order is a step of the old one, and there are no more than indices given. */
  lemma {:induction false} ReorderedElements<T>(orig: seq<T>, order: seq<int>)
    ensures |Reordered(orig, order)| <= |order|
    ensures forall x :: x in Reordered(orig, order) ==> x in orig
  {
    if order != [] {
      ReorderedElements(orig, order[1..]);
    }
  }

  lemma {:induction false} ReorderedAppend<T>(orig: seq<T>, a: seq<int>, b: seq<int>)
    ensures Reordered(orig, a + b) == Reordered(orig, a) + Reordered(orig, b)
  {
    if a == [] {
      assert a + b == b;
    } else {
      assert (a + b)[1..] == a[1..] + b;
      ReorderedAppend(orig, a[1..], b);
    }
  }

  /** Indices that are valid in a prefix pick the same elements from the prefix. */
  lemma {:induction false} ReorderedPrefix<T>(orig: seq<T>, n: nat, order: seq<int>)
    requires n <= |orig|
    requires forall k :: 0 <= k < |order| ==> 0 <= order[k] < n
    ensures Reordered(orig, order) == Reordered(orig[..n], order)
  {
    if order != [] {
      ReorderedPrefix(orig, n, order[1..]);
    }
  }

  /** The identity order gives the steps back. */
  lemma {:induction false} ReorderedIdentity<T>(orig: seq<T>)
    ensures Reordered(orig, Indices(|orig|)) == orig
  {
    if orig != [] {
      var n := |orig|;
      ReorderedAppend(orig, Indices(n - 1), [n - 1]);
      ReorderedPrefix(orig, n - 1, Indices(n - 1));
      ReorderedIdentity(orig[..n - 1]);
      assert Reordered(orig, [n - 1]) == [orig[n - 1]];
      assert orig[..n - 1] + [orig[n - 1]] == orig;
    }
  }

  lemma IndicesMembers(n: nat, x: int)
    ensures x in multiset(Indices(n)) <==> 0 <= x < n
  {
    if 0 <= x < n {
      assert Indices(n)[x] == x;
    }
  }

  /** Where the largest index `n - 1` stands in a permutation of `0 .. n - 1`. */
  lemma LastIndexPosition(order: seq<int>, n: nat) returns (p: nat)
    requires n > 0 && multiset(order) == multiset(Indices(n))
    ensures p < |order| && order[p] == n - 1
  {
    IndicesMembers(n, n - 1);
    assert n - 1 in order;
    p :| 0 <= p < |order| && order[p] == n - 1;
  }

  /** Without the largest index, a permutation of `0 .. n - 1` is one of `0 .. n - 2`. */
  lemma PermutationWithoutLast(order: seq<int>, n: nat, p: nat)
    requires n > 0 && multiset(order) == multiset(Indices(n))
    requires p < |order| && order[p] == n - 1
    ensures multiset(order[..p] + order[p + 1..]) == multiset(Indices(n - 1))
  {
    var rest := order[..p] + order[p + 1..];
    assert order == order[..p] + [n - 1] + order[p + 1..];
    assert Indices(n) == Indices(n - 1) + [n - 1];
    calc {
      multiset(rest) + multiset{n - 1};
      multiset(order);
      multiset(Indices(n - 1)) + multiset{n - 1};
    }
    Cancel(multiset(rest), multiset(Indices(n - 1)), multiset{n - 1});
  }

  lemma ReorderedOne<T>(orig: seq<T>, i: int)
    requires 0 <= i < |orig|
    ensures Reordered(orig, [i]) == [orig[i]]
  {
    assert [i][1..] == [];
  }

  lemma ReorderedAround<T>(orig: seq<T>, before: seq<int>, after: seq<int>, i: int)
    requires 0 <= i < |orig|
    ensures Reordered(orig, before + [i] + after) == Reordered(orig, before) + [orig[i]] + Reordered(orig, after)
  {
    ReorderedAppend(orig, before + [i], after);
    ReorderedAppend(orig, before, [i]);
    ReorderedOne(orig, i);
  }

  lemma ReorderedAt<T>(orig: seq<T>, order: seq<int>, p: nat)
    requires p < |order| && 0 <= order[p] < |orig|
    ensures Reordered(orig, order) == Reordered(orig, order[..p]) + [orig[order[p]]] + Reordered(orig, order[p + 1..])
  {
    SplitAt(order, p);
    ReorderedSplit(orig, order, order[..p], order[p + 1..], order[p]);
  }

  lemma SplitAt<T>(s: seq<T>, p: nat)
    requires p < |s|
    ensures s == s[..p] + [s[p]] + s[p + 1..]
  {
  }

  lemma ReorderedSplit<T>(orig: seq<T>, order: seq<int>, before: seq<int>, after: seq<int>, i: int)
    requires 0 <= i < |orig| && order == before + [i] + after
    ensures Reordered(orig, order) == Reordered(orig, before) + [orig[i]] + Reordered(orig, after)
  {
    ReorderedAround(orig, before, after, i);
  }

  /** Picking with an index taken out of the order picks its element once less. */
  lemma ReorderedWithout<T>(orig: seq<T>, order: seq<int>, p: nat)
    requires p < |order| && 0 <= order[p] < |orig|
    ensures multiset(Reordered(orig, order))
            == multiset(Reordered(orig, order[..p] + order[p + 1..])) + multiset{orig[order[p]]}
  {
    var before, after := order[..p], order[p + 1..];
    ReorderedAt(orig, order, p);
    ReorderedAppend(orig, before, after);
    MiddleOut(Reordered(orig, before), orig[order[p]], Reordered(orig, after));
  }

  lemma PrefixMultisetLast<T>(s: seq<T>, n: nat)
    requires 0 < n <= |s|
    ensures multiset(s[..n]) == multiset(s[..n - 1]) + multiset{s[n - 1]}
  {
    assert s[..n] == s[..n - 1] + [s[n - 1]];
  }

  lemma MiddleOut<T>(a: seq<T>, x: T, b: seq<T>)
    ensures multiset(a + [x] + b) == multiset(a + b) + multiset{x}
  {
  }

  /** An order that is a permutation of `0 .. n - 1` picks the first `n` elements, each once. */
  lemma {:induction false} ReorderedPrefixPermutation<T>(orig: seq<T>, n: nat, order: seq<int>)
    requires n <= |orig|
    requires multiset(order) == multiset(Indices(n))
    ensures multiset(Reordered(orig, order)) == multiset(orig[..n])
  {
    if n == 0 {
      assert |order| == |multiset(order)| == |multiset(Indices(0))| == 0;
    } else {
      var p := LastIndexPosition(order, n);
      var rest := order[..p] + order[p + 1..];
      assert multiset(Reordered(orig, order)) == multiset(Reordered(orig, rest)) + multiset{orig[n - 1]} by {
        ReorderedWithout(orig, order, p);
      }
      assert multiset(Reordered(orig, rest)) == multiset(orig[..n - 1]) by {
        PermutationWithoutLast(order, n, p);
        ReorderedPrefixPermutation(orig, n - 1, rest);
      }
      PrefixMultisetLast(orig, n);
    }
  }

  /**
   * A new order that is a permutation of the step indices gives a permutation of
   * the steps.
   */
  lemma ReorderedPermutation<T>(orig: seq<T>, order: seq<int>)
    requires multiset(order) == multiset(Indices(|orig|))
    ensures multiset(Reordered(orig, order)) == multiset(orig)
  {
    ReorderedPrefixPermutation(orig, |orig|, order);
    assert orig[..|orig|] == orig;
  }

  /** `reorderTaskSteps` replaces the steps of the task found, and nothing else. */
  lemma StepsReorderedSpec(b: Board, taskId: string, columnId: string, newOrder: seq<int>)
    ensures var r := StepsReordered(b, taskId, columnId, newOrder);
      var ref := FindTask(b, columnId, taskId);
      if ref.None? || TaskAt(b, ref.value).steps.None? then r == b
      else
        var t := TaskAt(b, ref.value);
        && TaskAt(r, ref.value).(steps := t.steps) == t
        && TaskAt(r, ref.value).steps == Some(Reordered(t.steps.value, newOrder))
        && OnlyTaskChanged(r, b, ref.value)
  {
    var ref := FindTask(b, columnId, taskId);
    if ref.Some? && TaskAt(b, ref.value).steps.Some? {
      var t := TaskAt(b, ref.value);
      WithTaskFrame(b, ref.value, t.(steps := Some(Reordered(t.steps.value, newOrder))));
    }
  }

  // ---------------------------------------------------------------------------
  // Columns
  // ---------------------------------------------------------------------------

  /** `addColumn` appends one empty, unarchived column and keeps every task. */
  lemma ColumnAddedSpec(b: Board, id: string, title: string)
    ensures var r := ColumnAdded(b, id, title);
      && r.title == b.title
      && |r.columns| == |b.columns| + 1
      && r.columns[..|b.columns|] == b.columns
      && r.columns[|b.columns|] == Column(id, title, [], false)
      && AllTasks(r.columns) == AllTasks(b.columns)
  {
    var r := ColumnAdded(b, id, title);
    AllTasksAppend(b.columns, [Column(id, title, [], false)]);
    assert AllTasks([Column(id, title, [], false)]) == [];
  }

  /** Moving a column to where it is changes nothing. */
  lemma ColumnMovedInPlace(b: Board, index: int)
    ensures ColumnMoved(b, index, index) == b
  {
  }

  /**
   * Moving a column keeps the columns, each as often as before, and puts the moved
   * one at its new index; the other columns keep their order.
   */
  lemma ColumnMovedSpec(b: Board, fromIndex: int, toIndex: int)
    requires fromIndex != toIndex
    requires MoveColumnDefined(b, fromIndex, toIndex)
    ensures var r := ColumnMoved(b, fromIndex, toIndex);
      && r.title == b.title
      && |r.columns| == |b.columns|
      && multiset(r.columns) == multiset(b.columns)
      && r.columns[SpliceStart(|b.columns| - 1, toIndex)] == b.columns[SpliceStart(|b.columns|, fromIndex)]
    ensures var r := ColumnMoved(b, fromIndex, toIndex);
      RemoveAt(r.columns, SpliceStart(|b.columns| - 1, toIndex)) == RemoveAt(b.columns, SpliceStart(|b.columns|, fromIndex))
  {
    var i := SpliceStart(|b.columns|, fromIndex);
    var p := SpliceStart(|b.columns| - 1, toIndex);
    assert ColumnMoved(b, fromIndex, toIndex).columns == InsertAt(RemoveAt(b.columns, i), p, b.columns[i]);
    MovedElement(b.columns, i, p);
  }

  /** Taking element `i` out and putting it back at `p` keeps the elements, and the others in order. */
  lemma MovedElement<T>(s: seq<T>, i: nat, p: nat)
    requires i < |s| && p < |s|
    ensures var r := InsertAt(RemoveAt(s, i), p, s[i]);
      && |r| == |s| && multiset(r) == multiset(s) && r[p] == s[i]
      && RemoveAt(r, p) == RemoveAt(s, i)
  {
    var rest := RemoveAt(s, i);
    calc {
      multiset(InsertAt(rest, p, s[i]));
      multiset(rest) + multiset{s[i]};
      multiset(s);
    }
    RemoveInserted(rest, p, s[i]);
  }

  /** `toggleColumnArchive` sets the flag of the first column with the id, and changes nothing else. */
  lemma ArchiveSetSpec(b: Board, columnId: string, archived: bool)
    ensures var r := ArchiveSet(b, columnId, archived);
      && r.title == b.title && |r.columns| == |b.columns|
      && (forall k :: 0 <= k < |b.columns| ==> r.columns[k].(archived := b.columns[k].archived) == b.columns[k])
      && (forall k :: 0 <= k < |b.columns| ==>
            r.columns[k].archived == if ColumnIndex(b.columns, columnId) == Some(k) then archived else b.columns[k].archived)
  {
  }

  /** Without a column of that id, `toggleColumnArchive` changes nothing. */
  lemma ArchiveSetMissing(b: Board, columnId: string, archived: bool)
    requires forall k :: 0 <= k < |b.columns| ==> b.columns[k].id != columnId
    ensures ArchiveSet(b, columnId, archived) == b
  {
  }

  // ---------------------------------------------------------------------------
  // editTask
  // ---------------------------------------------------------------------------

  /**
   * After `editTask`, a start or due date is there exactly when the form held a
   * non-blank one, trimmed; so the generator writes a `start:` / `due:` line for
   * it exactly then. Tags and steps are always set, and the id, the detail path
   * and the other dates stay as they were.
   */
  lemma EditedSpec(t: Task, data: TaskData)
    ensures var e := Edited(t, data);
      && (e.startDate.Some? <==> data.startDate.Some? && Trim(data.startDate.value) != "")
      && (e.dueDate.Some? <==> data.dueDate.Some? && Trim(data.dueDate.value) != "")
      && (e.startDate.Some? ==> e.startDate.value == Trim(data.startDate.value))
      && (e.dueDate.Some? ==> e.dueDate.value == Trim(data.dueDate.value))
      && e.tags.Some? && e.steps.Some?
      && e.id == t.id && e.detailPath == t.detailPath && e.updated == t.updated
      && e.completed == t.completed && e.milestone == t.milestone
  {
  }

  /** The `start:` and `due:` lines written after an edit: one exactly for a non-blank form date. */
  lemma EditedDateLines(t: Task, data: TaskData)
    ensures var e := Edited(t, data);
      MarkdownGenerator.LinesFor(e, Dialect.StartKey)
      == if data.startDate.Some? && Trim(data.startDate.value) != ""
         then [MarkdownGenerator.PropertyLine(Dialect.StartKey, Trim(data.startDate.value))] else []
    ensures var e := Edited(t, data);
      MarkdownGenerator.LinesFor(e, Dialect.DueKey)
      == if data.dueDate.Some? && Trim(data.dueDate.value) != ""
         then [MarkdownGenerator.PropertyLine(Dialect.DueKey, Trim(data.dueDate.value))] else []
  {
    var e := Edited(t, data);
    EditedDates(t, data);
    StartLines(e);
    DueLines(e);
    NormalizedDateLines(Dialect.StartKey, data.startDate);
    NormalizedDateLines(Dialect.DueKey, data.dueDate);
  }

  lemma EditedDates(t: Task, data: TaskData)
    ensures Edited(t, data).startDate == NormalizedDate(data.startDate)
    ensures Edited(t, data).dueDate == NormalizedDate(data.dueDate)
  {
  }

  lemma StartLines(t: Task)
    ensures MarkdownGenerator.LinesFor(t, Dialect.StartKey) == DateLines(Dialect.StartKey, t.startDate)
  {
    assert MarkdownGenerator.PropertyValue(t, Dialect.StartKey) == MarkdownGenerator.TruthyValue(t.startDate);
  }

  lemma DueLines(t: Task)
    ensures MarkdownGenerator.LinesFor(t, Dialect.DueKey) == DateLines(Dialect.DueKey, t.dueDate)
  {
    assert MarkdownGenerator.PropertyValue(t, Dialect.DueKey) == MarkdownGenerator.TruthyValue(t.dueDate);
  }

  /** The lines a date property gets: one line with the date when it is truthy. */
  function DateLines(k: Dialect.PropertyKey, date: Option<string>): seq<string> {
    if Truthy(date) then [MarkdownGenerator.PropertyLine(k, date.value)] else []
  }

  lemma NormalizedDateLines(k: Dialect.PropertyKey, input: Option<string>)
    ensures DateLines(k, NormalizedDate(input))
            == if input.Some? && Trim(input.value) != "" then [MarkdownGenerator.PropertyLine(k, Trim(input.value))] else []
  {
  }

  /** `editTask` rewrites the task found and leaves the rest of the board alone; without it, nothing. */
  lemma TaskEditedSpec(b: Board, taskId: string, columnId: string, data: TaskData)
    ensures var r := TaskEdited(b, taskId, columnId, data);
      var ref := FindTask(b, columnId, taskId);
      if ref.None? then r == b
      else
        && TaskAt(r, ref.value) == Edited(TaskAt(b, ref.value), data)
        && OnlyTaskChanged(r, b, ref.value)
  {
    var ref := FindTask(b, columnId, taskId);
    if ref.Some? {
      WithTaskFrame(b, ref.value, Edited(TaskAt(b, ref.value), data));
    }
  }
}
