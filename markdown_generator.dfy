/**
 * The board generator of src/markdownParser.ts (`generateMarkdown`,
 * `generateTaskProperties`, `generateTaskDetailMarkdown`). The source appends
 * `"...\n"` pieces to a string; here each piece is a line and the text is
 * `Unlines` of the lines, which is the same string.
 */
module MarkdownGenerator {
  import opened Wrappers
  import opened JsString
  import opened KanbanModel
  import Dialect

  /** The `taskHeaderFormat` setting: `### title` headings or `- title` bullets. */
  datatype TaskHeaderFormat = TitleHeader | ListHeader

  /** `## <title>` with ` [Archived]` appended exactly when the column is archived. */
  function ColumnHeadingLine(c: Column): string {
    "## " + (if c.archived then c.title + " [Archived]" else c.title)
  }

  function TaskHeaderLines(t: Task, format: TaskHeaderFormat): seq<string> {
    if format == TitleHeader then ["### " + t.title, ""] else ["- " + t.title]
  }

  /** `  - <key>:`, the start of every property line and the whole `steps` line. */
  function KeyLine(k: Dialect.PropertyKey): string {
    "  - " + Dialect.KeyName(k) + ":"
  }

  /** `  - <key>: <value>`. */
  function PropertyLine(k: Dialect.PropertyKey, value: string): string {
    KeyLine(k) + " " + value
  }

  /** The character inside a step's check box. */
  function CheckMark(completed: bool): char {
    if completed then 'x' else ' '
  }

  /** `[x]` or `[ ]`. */
  function Checkbox(completed: bool): string {
    "[" + [CheckMark(completed)] + "]"
  }

  /** `      - [x] text` or `      - [ ] text`. */
  function StepLine(s: Step): string {
    "      - " + Checkbox(s.completed) + " " + s.text
  }

  function StepLines(steps: seq<Step>): (lines: seq<string>)
    ensures |lines| == |steps|
    ensures forall k :: 0 <= k < |steps| ==> lines[k] == StepLine(steps[k])
  {
    if steps == [] then [] else [StepLine(steps[0])] + StepLines(steps[1..])
  }

  /** A `  - steps:` block, written only for a non-empty list. */
  function StepsBlock(steps: Option<seq<Step>>): seq<string> {
    if steps.Some? && |steps.value| > 0 then [KeyLine(Dialect.StepsKey)] + StepLines(steps.value) else []
  }

  /** A truthy optional string, or nothing. */
  function TruthyValue(value: Option<string>): Option<string> {
    if Truthy(value) then value else None
  }

  /**
   * The value `generateTaskProperties` writes after `<key>: `, or nothing when the
   * task has no value for that key; `steps` has a block of its own instead.
   */
  function PropertyValue(t: Task, k: Dialect.PropertyKey): Option<string> {
    match k
    case IdKey => if t.id != "" then Some(t.id) else None
    case TagsKey => if t.tags.Some? && |t.tags.value| > 0 then Some("[" + Join(t.tags.value, ", ") + "]") else None
    case PriorityKey => if t.priority.Some? then Some(PriorityName(t.priority.value)) else None
    case WorkloadKey => if t.workload.Some? then Some(WorkloadName(t.workload.value)) else None
    case UpdatedKey => TruthyValue(t.updated)
    case CompletedKey => TruthyValue(t.completed)
    case MilestoneKey => TruthyValue(t.milestone)
    case StartKey => TruthyValue(t.startDate)
    case DueKey => TruthyValue(t.dueDate)
    case DetailKey => TruthyValue(t.detailPath)
    case DefaultExpandedKey =>
      if t.defaultExpanded.Some? then Some(if t.defaultExpanded.value then "true" else "false") else None
    case StepsKey => None
  }

  /** The lines `generateTaskProperties` writes for one key: none when the task has no value for it. */
  function LinesFor(t: Task, k: Dialect.PropertyKey): seq<string> {
    if k == Dialect.StepsKey then (if !Truthy(t.detailPath) then StepsBlock(t.steps) else [])
    else if PropertyValue(t, k).Some? then [PropertyLine(k, PropertyValue(t, k).value)]
    else []
  }

  /** The lines of the keys before position `r` of the canonical order, key after key. */
  function LinesUpTo(t: Task, r: nat): seq<string>
    requires r <= |Dialect.CanonicalOrder|
  {
    if r == 0 then [] else LinesUpTo(t, r - 1) + LinesFor(t, Dialect.CanonicalOrder[r - 1])
  }

  /** The property lines of `generateTaskProperties`: the lines of every key, in the canonical order. */
  function PropertyLines(t: Task): seq<string> {
    LinesUpTo(t, |Dialect.CanonicalOrder|)
  }

  /** `generateTaskProperties(task)`. */
  function GenerateTaskProperties(t: Task): string {
    Unlines(PropertyLines(t))
  }

  function IndentLines(lines: seq<string>): (r: seq<string>)
    ensures |r| == |lines|
    ensures forall k :: 0 <= k < |lines| ==> r[k] == "    " + lines[k]
  {
    if lines == [] then [] else ["    " + lines[0]] + IndentLines(lines[1..])
  }

  /** The fenced, indented description block, written only when the trimmed text is non-empty. */
  function DescriptionBlock(description: Option<string>): seq<string> {
    if description.Some? && Trim(description.value) != "" then
      ["    ```md"] + IndentLines(Split(Trim(description.value), '\n')) + ["    ```"]
    else []
  }

  /** A task's lines: header, properties, description (only without a detail file), a blank line. */
  function TaskLines(t: Task, format: TaskHeaderFormat): seq<string> {
    TaskHeaderLines(t, format)
    + PropertyLines(t)
    + (if !Truthy(t.detailPath) then DescriptionBlock(t.description) else [])
    + [""]
  }

  function TasksLines(tasks: seq<Task>, format: TaskHeaderFormat): seq<string> {
    if tasks == [] then [] else TaskLines(tasks[0], format) + TasksLines(tasks[1..], format)
  }

  function ColumnLines(c: Column, format: TaskHeaderFormat): seq<string> {
    [ColumnHeadingLine(c), ""] + TasksLines(c.tasks, format)
  }

  function ColumnsLines(columns: seq<Column>, format: TaskHeaderFormat): seq<string> {
    if columns == [] then [] else ColumnLines(columns[0], format) + ColumnsLines(columns[1..], format)
  }

  function BoardLines(b: Board, format: TaskHeaderFormat): seq<string> {
    (if b.title != "" then ["# " + b.title, ""] else []) + ColumnsLines(b.columns, format)
  }

  /** `generateMarkdown(board, taskHeaderFormat)`. */
  function GenerateMarkdown(b: Board, format: TaskHeaderFormat): string {
    Unlines(BoardLines(b, format))
  }

  /** The lines of a task's detail file before the final `trimEnd`. */
  function DetailLines(t: Task): seq<string> {
    ["# " + (if t.id != "" then t.id else "Task"), ""]
    + StepsBlock(t.steps)
    + DescriptionBlock(t.description)
  }

  /**
   * `generateTaskDetailMarkdown(task)`: the detail file ends in exactly one newline,
   * with no white space before it, and starts with the `# <id>` header (or `# Task`).
   */
  function GenerateTaskDetailMarkdown(t: Task): (md: string)
    ensures |md| >= 2 && md[|md| - 1] == '\n' && !IsWhitespace(md[|md| - 2])
    ensures md[0] == '#'
    ensures t.id != "" && IsTrimmed(t.id) ==> StartsWith(md, "# " + t.id)
    ensures t.id == "" ==> StartsWith(md, "# Task")
  {
    DetailTextHeader(t);
    HeaderKept(Unlines(DetailLines(t)), t.id);
    TrimEnd(Unlines(DetailLines(t))) + "\n"
  }

  /**
   * Trimming the end of a text that starts with the header line of task `id` keeps
   * the header mark, and the id when it is trimmed.
   */
  lemma HeaderKept(text: string, id: string)
    requires StartsWith(text, "# " + (if id != "" then id else "Task"))
    ensures StartsWith(TrimEnd(text), "#")
    ensures id != "" && IsTrimmed(id) ==> StartsWith(TrimEnd(text), "# " + id)
    ensures id == "" ==> StartsWith(TrimEnd(text), "# Task")
  {
    var name := if id != "" then id else "Task";
    HeaderMark(name);
    StartsWithTrans(text, "# " + name, "#");
    TrimEndKeepsPrefix(text, "#");
    if id != "" && IsTrimmed(id) {
      TrimEndKeepsPrefix(text, "# " + name);
    } else if id == "" {
      assert name[|"# " + name| - 3] == 'k';
      TrimEndKeepsPrefix(text, "# " + name);
    }
  }

  /** The detail text starts with its header line. */
  lemma DetailTextHeader(t: Task)
    ensures StartsWith(Unlines(DetailLines(t)), "# " + (if t.id != "" then t.id else "Task"))
  {
    var lines := DetailLines(t);
    assert lines[0] == "# " + (if t.id != "" then t.id else "Task");
    UnlinesStartsWithFirst(lines);
  }

  lemma UnlinesStartsWithFirst(lines: seq<string>)
    requires lines != []
    ensures StartsWith(Unlines(lines), lines[0])
  {
    var rest := Unlines(lines[1..]);
    assert (lines[0] + "\n" + rest)[..|lines[0]|] == lines[0];
  }

  lemma HeaderMark(name: string)
    ensures StartsWith("# " + name, "#")
  {
    assert ("# " + name)[..1] == "#";
  }
}
