/**
 * The board object graph of the kanban Markdown dialect: a board owns columns, a
 * column owns tasks, a task owns steps. Nothing is shared, so the graph is a value.
 */
module KanbanModel {
  import opened Wrappers

  datatype Step = Step(text: string, completed: bool)

  datatype Priority = Low | Medium | High

  datatype Workload = Easy | Normal | Hard | Extreme

  /** A task. Every optional TypeScript field is an `Option`; absent and `undefined` are `None`. */
  datatype Task = Task(
    id: string,
    title: string,
    description: Option<string>,
    tags: Option<seq<string>>,
    priority: Option<Priority>,
    workload: Option<Workload>,
    dueDate: Option<string>,
    startDate: Option<string>,
    updated: Option<string>,
    completed: Option<string>,
    milestone: Option<string>,
    detailPath: Option<string>,
    defaultExpanded: Option<bool>,
    steps: Option<seq<Step>>)

  /** A column; `archived` absent and `false` are not told apart. */
  datatype Column = Column(id: string, title: string, tasks: seq<Task>, archived: bool)

  datatype Board = Board(title: string, columns: seq<Column>)

  /** The word the dialect writes for a priority. */
  function PriorityName(p: Priority): string {
    match p
    case Low => "low"
    case Medium => "medium"
    case High => "high"
  }

  /** The word the dialect writes for a workload. */
  function WorkloadName(w: Workload): string {
    match w
    case Easy => "Easy"
    case Normal => "Normal"
    case Hard => "Hard"
    case Extreme => "Extreme"
  }

  /** JavaScript truthiness of an optional string: present and not empty. */
  predicate Truthy(s: Option<string>) {
    s.Some? && s.value != ""
  }

  /** A task as created from a title line: a fresh id and an empty description. */
  function NewTask(id: string, title: string): Task {
    Task(id, title, Some(""), None, None, None, None, None, None, None, None, None, None, None)
  }

  /** All tasks of a board, column by column. */
  function AllTasks(columns: seq<Column>): seq<Task>
  {
    if columns == [] then [] else columns[0].tasks + AllTasks(columns[1..])
  }

  lemma {:induction false} AllTasksAppend(a: seq<Column>, b: seq<Column>)
    ensures AllTasks(a + b) == AllTasks(a) + AllTasks(b)
  {
    if a == [] {
      assert a + b == b;
    } else {
      assert (a + b)[1..] == a[1..] + b;
      AllTasksAppend(a[1..], b);
    }
  }
}
