/**
 * The board parser of src/markdownParser.ts (`parseMarkdown` and the helpers it
 * calls). The line recognisers below state the source's regular expressions as
 * predicates on strings; `Examine` is the treatment of one line by the loop body,
 * `Parse` the whole scan, and the method `ParseMarkdown` is the loop itself,
 * proved to compute `Parse`.
 */
module MarkdownParser {
  import opened Wrappers
  import opened JsString
  import opened KanbanModel
  import Dialect

  // ---------------------------------------------------------------------------
  // Line recognisers
  // ---------------------------------------------------------------------------

  /**
   * The first key of `keys` such that `s` starts with `<key>:`, with the text after
   * that colon (see `FirstKeyInSpec`).
   */
  function FirstKeyIn(s: string, keys: seq<Dialect.PropertyKey>): Option<(Dialect.PropertyKey, string)>
  {
    if keys == [] then None
    else if StartsWith(s, Dialect.KeyName(keys[0]) + ":") then Some((keys[0], s[|Dialect.KeyName(keys[0])| + 1..]))
    else FirstKeyIn(s, keys[1..])
  }

  /** The alternation tries the keys in order: the first key whose text and colon start `s`. */
  lemma {:induction false} FirstKeyInSpec(s: string, keys: seq<Dialect.PropertyKey>)
    ensures FirstKeyIn(s, keys).Some? ==>
      var (k, rest) := FirstKeyIn(s, keys).value;
      k in keys && s == Dialect.KeyName(k) + ":" + rest
    ensures FirstKeyIn(s, keys).None? ==> forall k :: k in keys ==> !StartsWith(s, Dialect.KeyName(k) + ":")
  {
    if keys != [] && !StartsWith(s, Dialect.KeyName(keys[0]) + ":") {
      FirstKeyInSpec(s, keys[1..]);
    }
  }

  /** The alternation `(id|due|tags|...|completed):` at the start of `s`, and what follows the colon. */
  function KeyAt(s: string): Option<(Dialect.PropertyKey, string)> {
    FirstKeyIn(s, Dialect.ReservedKeys)
  }

  /** `(key):\s*(.*)$`: what follows the dash of a property bullet, as key and trimmed value. */
  function MatchPropertyText(afterDash: string): Option<(Dialect.PropertyKey, string)>
  {
    match KeyAt(afterDash)
    case None => None
    case Some((k, rest)) =>
      var group := TrimStart(rest);
      if NoLineBreak(group) then Some((k, Trim(group))) else None
  }

  /**
   * `^\s+- (key):\s*(.*)$`: the key and the trimmed value of an indented property
   * line, or `None`.
   */
  function MatchProperty(line: string): Option<(Dialect.PropertyKey, string)>
  {
    var lead := LeadingWhitespace(line);
    if lead >= 1 && StartsWith(line[lead..], "- ") then MatchPropertyText(line[lead + 2..]) else None
  }

  /** The first position of `c` in `s`. */
  function FirstIndexOf(s: string, c: char): Option<nat>
  {
    if s == [] then None
    else if s[0] == c then Some(0)
    else
      match FirstIndexOf(s[1..], c)
      case None => None
      case Some(k) => Some(k + 1)
  }

  lemma {:induction false} FirstIndexOfSpec(s: string, c: char)
    ensures FirstIndexOf(s, c).Some? ==>
      var i := FirstIndexOf(s, c).value; i < |s| && s[i] == c && c !in s[..i]
    ensures FirstIndexOf(s, c).None? ==> c !in s
  {
    if s != [] && s[0] != c {
      FirstIndexOfSpec(s[1..], c);
      if FirstIndexOf(s[1..], c).Some? {
        var k := FirstIndexOf(s[1..], c).value;
        assert s[..k + 1] == [s[0]] + s[1..][..k];
      } else {
        assert s == [s[0]] + s[1..];
      }
    }
  }

  /** The last position of `c` in `s`. */
  function LastIndexOf(s: string, c: char): Option<nat>
  {
    if s == [] then None
    else if s[|s| - 1] == c then Some(|s| - 1)
    else LastIndexOf(s[..|s| - 1], c)
  }

  lemma {:induction false} LastIndexOfSpec(s: string, c: char)
    ensures LastIndexOf(s, c).Some? ==>
      var i := LastIndexOf(s, c).value; i < |s| && s[i] == c && c !in s[i + 1..]
    ensures LastIndexOf(s, c).None? ==> c !in s
  {
    if s != [] && s[|s| - 1] != c {
      LastIndexOfSpec(s[..|s| - 1], c);
      if LastIndexOf(s[..|s| - 1], c).Some? {
        var k := LastIndexOf(s[..|s| - 1], c).value;
        assert s[k + 1..] == s[..|s| - 1][k + 1..] + [s[|s| - 1]];
      } else {
        assert s == s[..|s| - 1] + [s[|s| - 1]];
      }
    }
  }

  /** `value.match(/\[(.*)\]/)[1]` on a one-line value: from the first `[` to the last `]`. */
  function BracketContents(value: string): Option<string>
  {
    LastIndexOfSpec(value, ']');
    match (FirstIndexOf(value, '['), LastIndexOf(value, ']'))
    case (Some(p), Some(q)) => if p < q then Some(value[p + 1..q]) else None
    case _ => None
  }

  /** `parts.map(tag => tag.trim())`. */
  function TrimEach(parts: seq<string>): seq<string>
  {
    if parts == [] then [] else [Trim(parts[0])] + TrimEach(parts[1..])
  }

  /** `['low', 'medium', 'high'].includes(value)`. */
  function ParsePriority(value: string): Option<Priority> {
    if value == "low" then Some(Low)
    else if value == "medium" then Some(Medium)
    else if value == "high" then Some(High)
    else None
  }

  /** `['Easy', 'Normal', 'Hard', 'Extreme'].includes(value)`. */
  function ParseWorkload(value: string): Option<Workload> {
    if value == "Easy" then Some(Easy)
    else if value == "Normal" then Some(Normal)
    else if value == "Hard" then Some(Hard)
    else if value == "Extreme" then Some(Extreme)
    else None
  }

  /** The `switch (propertyName)` of `parseTaskProperty`. */
  function SetProperty(task: Task, k: Dialect.PropertyKey, value: string): (r: Task)
    ensures r.title == task.title && r.description == task.description
  {
    match k
    case IdKey => if value != "" then task.(id := value) else task
    case DueKey => task.(dueDate := Some(value))
    case StartKey => task.(startDate := Some(value))
    case TagsKey =>
      (match BracketContents(value)
       case Some(inner) => task.(tags := Some(TrimEach(Split(inner, ','))))
       case None => task)
    case PriorityKey =>
      (match ParsePriority(value)
       case Some(p) => task.(priority := Some(p))
       case None => task)
    case WorkloadKey =>
      (match ParseWorkload(value)
       case Some(w) => task.(workload := Some(w))
       case None => task)
    case UpdatedKey => task.(updated := Some(value))
    case CompletedKey => task.(completed := Some(value))
    case MilestoneKey => task.(milestone := Some(value))
    case DetailKey => if value != "" then task.(detailPath := Some(value)) else task
    case DefaultExpandedKey => task.(defaultExpanded := Some(ToLowerAscii(value) == "true"))
    case StepsKey => task.(steps := Some([]))
  }

  /** `parseTaskProperty(line, task)`: `None` when the line is not a property line. */
  function ParseTaskProperty(line: string, task: Task): (r: Option<Task>)
    ensures r.Some? <==> MatchProperty(line).Some?
  {
    match MatchProperty(line)
    case None => None
    case Some((k, value)) => Some(SetProperty(task, k, value))
  }

  /** `[ x]\]`: a check box's mark and closing bracket at the start of `s`. */
  predicate BoxAt(s: string) {
    |s| >= 2 && (s[0] == ' ' || s[0] == 'x') && s[1] == ']'
  }

  /** `([ x])\]\s*(.*)$`: what follows `- [` of a checklist line, as a step. */
  function MatchStepText(s: string): Option<Step>
  {
    if BoxAt(s) then
      var group := TrimStart(s[2..]);
      if NoLineBreak(group) then Some(Step(Trim(group), s[0] == 'x')) else None
    else None
  }

  /** `^\s{6,}- \[([ x])\]\s*(.*)$`: a checklist line, as a step. */
  function MatchStep(line: string): Option<Step>
  {
    var lead := LeadingWhitespace(line);
    if lead >= 6 && StartsWith(line[lead..], "- [") then MatchStepText(line[lead + 3..]) else None
  }

  /** `parseTaskStep(line, task)`: steps are only collected once `steps` exists. */
  function ParseTaskStep(line: string, task: Task): Option<Task> {
    if task.steps.None? then None
    else
      match MatchStep(line)
      case None => None
      case Some(step) => Some(task.(steps := Some(task.steps.value + [step])))
  }

  /** `^\s*- (key):` — a bullet whose text starts with a reserved key. */
  predicate ReservedBullet(s: string) {
    var lead := LeadingWhitespace(s);
    StartsWith(s[lead..], "- ") && KeyAt(s[lead + 2..]).Some?
  }

  /** `^\s{6,}- \[([ x])\]` — an indented checklist item. */
  predicate IndentedCheckbox(line: string) {
    var lead := LeadingWhitespace(line);
    lead >= 6 && StartsWith(line[lead..], "- [") && BoxAt(line[lead + 3..])
  }

  /** `isTaskTitle(line, trimmedLine)`. */
  predicate IsTaskTitle(line: string, trimmed: string) {
    if StartsWith(line, "- ") && (ReservedBullet(trimmed) || IndentedCheckbox(line)) then false
    else (StartsWith(line, "- ") && !StartsWith(line, "  ")) || StartsWith(trimmed, "### ")
  }

  /** The title of a task line: a `### ` heading, or a bullet without its `[ ] `/`[x] ` box. */
  function TaskTitleText(trimmed: string): string {
    if StartsWith(trimmed, "### ") then Trim(Substring(trimmed, 4))
    else
      var title := Trim(Substring(trimmed, 2));
      if StartsWith(title, "[ ] ") || StartsWith(title, "[x] ") then Trim(Substring(title, 4)) else title
  }

  /** `columnTitle.replace(/\s*\[Archived\]$/, '')` for a title ending in the marker. */
  function StripArchivedMarker(title: string): string
    requires EndsWith(title, "[Archived]")
  {
    TrimEnd(title[..|title| - |"[Archived]"|])
  }

  /** The title and the archived flag of a `## ` heading. */
  function ParseColumnHeading(trimmed: string): (string, bool) {
    var title := Trim(Substring(trimmed, 3));
    if EndsWith(title, "[Archived]") then (Trim(StripArchivedMarker(title)), true) else (title, false)
  }

  /** `line.replace(/^\s{4,}/, '')`: a run of four or more white-space characters goes entirely. */
  function CleanDescriptionLine(line: string): string {
    var lead := LeadingWhitespace(line);
    if lead >= 4 then line[lead..] else line
  }

  /** `^\s+```md`: the indented fence that opens a description. */
  predicate IsFenceOpen(line: string) {
    var lead := LeadingWhitespace(line);
    lead >= 1 && StartsWith(line[lead..], "```md")
  }

  /** One description line joins the description with a newline, or starts it. */
  function AppendDescription(task: Task, cleanLine: string): Task {
    task.(description := Some(if Truthy(task.description) then task.description.value + "\n" + cleanLine
                              else cleanLine))
  }

  /** A task as `finalizeCurrentTask` leaves it: a truthy description is trimmed, and deleted if blank. */
  function FinalizedTask(task: Task): Task {
    if Truthy(task.description) then
      var d := Trim(task.description.value);
      if d == "" then task.(description := None) else task.(description := Some(d))
    else task
  }

  /** `finalizeCurrentTask(task, column)`: the open column with the finalised task pushed onto it. */
  function FinalizeCurrentTask(task: Option<Task>, column: Option<Column>): (r: Option<Column>)
    ensures r.Some? <==> column.Some?
    ensures task.None? ==> r == column
    ensures task.Some? && column.Some? ==>
      && r.value.(tasks := column.value.tasks) == column.value
      && |r.value.tasks| == |column.value.tasks| + 1
      && r.value.tasks[..|column.value.tasks|] == column.value.tasks
      && r.value.tasks[|column.value.tasks|] == FinalizedTask(task.value)
  {
    if task.None? || column.None? then column
    else Some(column.value.(tasks := column.value.tasks + [FinalizedTask(task.value)]))
  }

  /** The id the n-th call of `generateId` returns. */
  function GeneratedId(ids: nat -> string, n: nat): string {
    ids(n)
  }

  /** `if (currentColumn) board.columns.push(currentColumn)`. */
  function PushColumn(board: Board, column: Option<Column>): Board {
    if column.Some? then board.(columns := board.columns + [column.value]) else board
  }

  // ---------------------------------------------------------------------------
  // The scan
  // ---------------------------------------------------------------------------

  /** The loop's variables: the board so far, the open column and task, and the mode flags. */
  datatype ParserState = ParserState(
    board: Board,
    currentColumn: Option<Column>,
    currentTask: Option<Task>,
    inTaskProperties: bool,
    inTaskDescription: bool,
    inCodeBlock: bool,
    idsUsed: nat)

  const InitialState := ParserState(Board("", []), None, None, false, false, false, 0)

  /** The state after one line, and whether the same line must be examined again (`i--`). */
  datatype Outcome = Outcome(state: ParserState, rewind: bool)

  /**
   * The loop body of `parseMarkdown` on one line. `ids(n)` stands for the n-th call
   * of `generateId`.
   */
  function Examine(st: ParserState, line: string, ids: nat -> string): Outcome
  {
    var trimmed := Trim(line);
    if StartsWith(trimmed, "```") && st.inTaskDescription && (trimmed == "```md" || trimmed == "```") then
      Outcome(st.(inCodeBlock := !st.inCodeBlock), false)
    else if st.inCodeBlock && st.inTaskDescription && st.currentTask.Some? then
      if trimmed == "```" then
        Outcome(st.(inCodeBlock := false, inTaskDescription := false), false)
      else
        Outcome(st.(currentTask := Some(AppendDescription(st.currentTask.value, CleanDescriptionLine(line)))), false)
    else if !st.inCodeBlock && StartsWith(trimmed, "# ") && st.board.title == "" then
      Outcome(st.(board := st.board.(title := Trim(Substring(trimmed, 2))),
                  currentColumn := FinalizeCurrentTask(st.currentTask, st.currentColumn),
                  currentTask := None,
                  inTaskProperties := false,
                  inTaskDescription := false), false)
    else if !st.inCodeBlock && StartsWith(trimmed, "## ") then
      ColumnOpened(st, trimmed, ids)
    else
      ExamineTaskLine(st, line, trimmed, ids)
  }

  /** A `## ` heading: the open task and column are closed and a new, empty column is opened. */
  function ColumnOpened(st: ParserState, trimmed: string, ids: nat -> string): Outcome {
    var heading := ParseColumnHeading(trimmed);
    Outcome(st.(board := PushColumn(st.board, FinalizeCurrentTask(st.currentTask, st.currentColumn)),
                currentColumn := Some(Column(GeneratedId(ids, st.idsUsed), heading.0, [], heading.1)),
                currentTask := None,
                inTaskProperties := false,
                inTaskDescription := false,
                idsUsed := st.idsUsed + 1), false)
  }

  /**
   * The branches of the loop body that follow the headings: task titles, property
   * and step lines, the description fence, blank lines and the line that closes a task.
   */
  function ExamineTaskLine(st: ParserState, line: string, trimmed: string, ids: nat -> string): (r: Outcome)
    ensures r.state.board == st.board
  {
    if !st.inCodeBlock && IsTaskTitle(line, trimmed) then
      var column := FinalizeCurrentTask(st.currentTask, st.currentColumn);
      if column.Some? then
        Outcome(st.(currentColumn := column,
                    currentTask := Some(NewTask(GeneratedId(ids, st.idsUsed), TaskTitleText(trimmed))),
                    inTaskProperties := true,
                    inTaskDescription := false,
                    idsUsed := st.idsUsed + 1), false)
      else
        Outcome(st.(currentColumn := column), false)
    else if !st.inCodeBlock && st.currentTask.Some? && st.inTaskProperties
            && ParseTaskProperty(line, st.currentTask.value).Some? then
      Outcome(st.(currentTask := ParseTaskProperty(line, st.currentTask.value)), false)
    else if !st.inCodeBlock && st.currentTask.Some? && st.inTaskProperties
            && ParseTaskStep(line, st.currentTask.value).Some? then
      Outcome(st.(currentTask := ParseTaskStep(line, st.currentTask.value)), false)
    else if !st.inCodeBlock && st.currentTask.Some? && st.inTaskProperties && IsFenceOpen(line) then
      Outcome(st.(inTaskProperties := false, inTaskDescription := true, inCodeBlock := true), false)
    else if trimmed == "" then
      Outcome(st, false)
    else if !st.inCodeBlock && st.currentTask.Some? && (st.inTaskProperties || st.inTaskDescription) then
      Outcome(st.(currentColumn := FinalizeCurrentTask(st.currentTask, st.currentColumn),
                  currentTask := None,
                  inTaskProperties := false,
                  inTaskDescription := false), true)
    else
      Outcome(st, false)
  }

  /** A line, examined once more when the first examination closed the open task. */
  function Feed(st: ParserState, line: string, ids: nat -> string): ParserState {
    var first := Examine(st, line, ids);
    if first.rewind then Examine(first.state, line, ids).state else first.state
  }

  function Run(st: ParserState, lines: seq<string>, ids: nat -> string): ParserState
    decreases |lines|
  {
    if lines == [] then st else Run(Feed(st, lines[0], ids), lines[1..], ids)
  }

  /** After the last line: the open task goes into the open column, which goes onto the board. */
  function Finish(st: ParserState): Board {
    PushColumn(st.board, FinalizeCurrentTask(st.currentTask, st.currentColumn))
  }

  /** `parseMarkdown(content)`, with the ids `generateId` would return supplied by `ids`. */
  function Parse(content: string, ids: nat -> string): Board {
    Finish(Run(InitialState, Lines(content), ids))
  }

  /** Once the open task is closed, no line can close it again. */
  lemma NoRewindWithoutTask(st: ParserState, line: string, ids: nat -> string)
    requires st.currentTask.None?
    ensures !Examine(st, line, ids).rewind
  {
  }

  /**
   * A line that asks to be examined again has closed the open task, and on the
   * second examination it does not ask again: the rewind of the scan happens at
   * most once per line.
   */
  lemma RewindClosesTask(st: ParserState, line: string, ids: nat -> string)
    requires Examine(st, line, ids).rewind
    ensures st.currentTask.Some? && Examine(st, line, ids).state.currentTask.None?
    ensures Examine(st, line, ids).state.currentColumn == FinalizeCurrentTask(st.currentTask, st.currentColumn)
    ensures !Examine(Examine(st, line, ids).state, line, ids).rewind
  {
    ExamineRewinds(st, line, ids);
    TaskLineRewind(st, line, Trim(line), ids);
    NoRewindWithoutTask(Examine(st, line, ids).state, line, ids);
  }

  /** Only the task-line branches of the loop body can ask for a line to be examined again. */
  lemma ExamineRewinds(st: ParserState, line: string, ids: nat -> string)
    requires Examine(st, line, ids).rewind
    ensures Examine(st, line, ids) == ExamineTaskLine(st, line, Trim(line), ids)
  {
    var trimmed := Trim(line);
    if StartsWith(trimmed, "```") && st.inTaskDescription && (trimmed == "```md" || trimmed == "```") {
    } else if st.inCodeBlock && st.inTaskDescription && st.currentTask.Some? {
    } else if !st.inCodeBlock && StartsWith(trimmed, "# ") && st.board.title == "" {
    } else if !st.inCodeBlock && StartsWith(trimmed, "## ") {
    }
  }

  /** The line that closes the open task moves it into its column and leaves no task open. */
  lemma TaskLineRewind(st: ParserState, line: string, trimmed: string, ids: nat -> string)
    requires ExamineTaskLine(st, line, trimmed, ids).rewind
    ensures st.currentTask.Some? && ExamineTaskLine(st, line, trimmed, ids).state.currentTask.None?
    ensures ExamineTaskLine(st, line, trimmed, ids).state.currentColumn == FinalizeCurrentTask(st.currentTask, st.currentColumn)
  {
  }

  /** The scan from line `i` on: the line, then the rest. */
  lemma RunFrom(st: ParserState, lines: seq<string>, i: nat, ids: nat -> string)
    requires i < |lines|
    ensures Run(st, lines[i..], ids) == Run(Feed(st, lines[i], ids), lines[i + 1..], ids)
  {
    assert lines[i..][0] == lines[i];
    assert lines[i..][1..] == lines[i + 1..];
  }

  /** A line that closes the open task is fed as the same line fed once more, with no task open. */
  lemma FeedAfterRewind(st: ParserState, line: string, ids: nat -> string)
    requires Examine(st, line, ids).rewind
    ensures Feed(st, line, ids) == Feed(Examine(st, line, ids).state, line, ids)
  {
    RewindClosesTask(st, line, ids);
  }

  /**
   * One turn of the loop: a line that closes the task leaves the rest of the
   * scan, that line included, to the new state; any other line is consumed.
   */
  lemma ScanStep(st: ParserState, lines: seq<string>, i: nat, ids: nat -> string)
    requires i < |lines|
    ensures var o := Examine(st, lines[i], ids);
      o.rewind ==> st.currentTask.Some? && o.state.currentTask.None?
    ensures var o := Examine(st, lines[i], ids);
      o.rewind ==> Run(st, lines[i..], ids) == Run(o.state, lines[i..], ids)
    ensures var o := Examine(st, lines[i], ids);
      !o.rewind ==> Run(st, lines[i..], ids) == Run(o.state, lines[i + 1..], ids)
  {
    var o := Examine(st, lines[i], ids);
    RunFrom(st, lines, i, ids);
    if o.rewind {
      RewindClosesTask(st, lines[i], ids);
      FeedAfterRewind(st, lines[i], ids);
      RunFrom(o.state, lines, i, ids);
    }
  }

  /**
   * The body of the loop of `parseMarkdown` on line `i`: the new state, and whether
   * the line closed the open task and is to be examined again (`i--`).
   */
  method ScanLine(st: ParserState, lines: seq<string>, i: nat, ids: nat -> string) returns (next: ParserState, rewind: bool)
    requires i < |lines|
    ensures rewind ==> st.currentTask.Some? && next.currentTask.None?
    ensures rewind ==> Run(st, lines[i..], ids) == Run(next, lines[i..], ids)
    ensures !rewind ==> Run(st, lines[i..], ids) == Run(next, lines[i + 1..], ids)
  {
    var outcome := Examine(st, lines[i], ids);
    ScanStep(st, lines, i, ids);
    next, rewind := outcome.state, outcome.rewind;
  }

  /**
   * `parseMarkdown`: the loop over the lines. A line that closes the open task is
   * examined again (`i--`); the pair (lines left, task open) decreases.
   */
  method ParseMarkdown(content: string, ids: nat -> string) returns (board: Board)
    ensures board == Parse(content, ids)
  {
    var lines := Lines(content);
    var st := InitialState;
    var i := 0;
    ghost var scanned := Run(InitialState, lines, ids);
    assert lines[i..] == lines;
    while i < |lines|
      invariant 0 <= i <= |lines|
      invariant Run(st, lines[i..], ids) == scanned
      decreases |lines| - i, if st.currentTask.Some? then 1 else 0
    {
      var next, rewind := ScanLine(st, lines, i, ids);
      if rewind {
        i := i - 1;
      }
      st := next;
      i := i + 1;
    }
    assert lines[i..] == [];
    board := FinishScan(st);
  }

  /** After the loop: the open task goes into the open column, and that column onto the board. */
  method FinishScan(st: ParserState) returns (board: Board)
    ensures board == Finish(st)
  {
    var column := FinalizeCurrentTask(st.currentTask, st.currentColumn);
    board := st.board;
    if column.Some? {
      board := board.(columns := board.columns + [column.value]);
    }
  }
}
