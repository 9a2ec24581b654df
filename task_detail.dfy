/**
 * The detail-file codec of src/markdownParser.ts: a task whose `detail` property
 * names a side file keeps its steps and description there. `ParseTaskDetail`
 * is the scan of `parseTaskDetailMarkdown` as a function of the lines, and the
 * method `ParseTaskDetailMarkdown` is the loop with its three flags. Reading the
 * side file is an oracle from paths to contents, and the Node path functions are
 * parameters.
 */
module TaskDetail {
  import opened Wrappers
  import opened JsString
  import opened KanbanModel
  import MarkdownParser

  /** What a detail file carries: the two fields it may set. */
  datatype Detail = Detail(steps: Option<seq<Step>>, description: Option<string>)

  /** The flags and the collected lines of the scan. */
  datatype DetailState = DetailState(
    steps: seq<Step>,
    descriptionLines: seq<string>,
    inSteps: bool,
    inDescription: bool,
    inCodeBlock: bool)

  const DetailStart := DetailState([], [], false, false, false)

  /** `^\s+- steps:\s*$`. */
  predicate IsStepsHeader(line: string) {
    var lead := LeadingWhitespace(line);
    lead >= 1 && StartsWith(line[lead..], "- steps:") && AllWhitespace(line[lead + 8..])
  }

  /** `^\s+```md` or `^\s+````: the second pattern takes in the first. */
  predicate IsFence(line: string) {
    var lead := LeadingWhitespace(line);
    lead >= 1 && StartsWith(line[lead..], "```")
  }

  /** The loop body of `parseTaskDetailMarkdown` on one line. */
  function DetailStep(st: DetailState, line: string): DetailState {
    var trimmed := Trim(line);
    if st.inCodeBlock && st.inDescription then
      if trimmed == "```" then st.(inCodeBlock := false, inDescription := false)
      else st.(descriptionLines := st.descriptionLines + [MarkdownParser.CleanDescriptionLine(line)])
    else if IsStepsHeader(line) then
      st.(inSteps := true)
    else if st.inSteps && MarkdownParser.MatchStep(line).Some? then
      st.(steps := st.steps + [MarkdownParser.MatchStep(line).value])
    else if st.inSteps && trimmed == "" then
      st
    else
      var st' := st.(inSteps := false);
      if IsFence(line) then st'.(inDescription := true, inCodeBlock := true) else st'
  }

  function DetailRun(st: DetailState, lines: seq<string>): DetailState
    decreases |lines|
  {
    if lines == [] then st else DetailRun(DetailStep(st, lines[0]), lines[1..])
  }

  /** The fields after the scan: steps only when some were read, the joined description trimmed. */
  function DetailOf(st: DetailState): Detail {
    Detail(if |st.steps| > 0 then Some(st.steps) else None,
           if |st.descriptionLines| > 0 then Some(Trim(Join(st.descriptionLines, "\n"))) else None)
  }

  /** `parseTaskDetailMarkdown(content)`. */
  function ParseTaskDetail(content: string): Detail {
    DetailOf(DetailRun(DetailStart, Lines(content)))
  }

  lemma DetailRunFrom(st: DetailState, lines: seq<string>, i: nat)
    requires i < |lines|
    ensures DetailRun(st, lines[i..]) == DetailRun(DetailStep(st, lines[i]), lines[i + 1..])
  {
    assert lines[i..][0] == lines[i];
    assert lines[i..][1..] == lines[i + 1..];
  }

  /**
   * `parseTaskDetailMarkdown`: one pass over the lines, updating the step list,
   * the description lines and the three flags.
   */
  method ParseTaskDetailMarkdown(content: string) returns (detail: Detail)
    ensures detail == ParseTaskDetail(content)
  {
    var lines := Lines(content);
    var steps: seq<Step> := [];
    var descriptionLines: seq<string> := [];
    var inSteps, inDescription, inCodeBlock := false, false, false;
    var i := 0;
    assert lines[i..] == lines;
    while i < |lines|
      invariant 0 <= i <= |lines|
      invariant DetailRun(DetailState(steps, descriptionLines, inSteps, inDescription, inCodeBlock), lines[i..])
                == DetailRun(DetailStart, lines)
    {
      var line := lines[i];
      ghost var before := DetailState(steps, descriptionLines, inSteps, inDescription, inCodeBlock);
      DetailRunFrom(before, lines, i);
      var trimmedLine := Trim(line);
      i := i + 1;
      if inCodeBlock && inDescription {
        if trimmedLine == "```" {
          inCodeBlock := false;
          inDescription := false;
          continue;
        }
        descriptionLines := descriptionLines + [MarkdownParser.CleanDescriptionLine(line)];
        continue;
      }
      if IsStepsHeader(line) {
        inSteps := true;
        continue;
      }
      if inSteps {
        var stepMatch := MarkdownParser.MatchStep(line);
        if stepMatch.Some? {
          steps := steps + [stepMatch.value];
          continue;
        }
        if trimmedLine == "" {
          continue;
        }
        inSteps := false;
      }
      if IsFence(line) {
        inDescription := true;
        inCodeBlock := true;
        continue;
      }
    }
    detail := Detail(None, None);
    if |steps| > 0 {
      detail := detail.(steps := Some(steps));
    }
    if |descriptionLines| > 0 {
      detail := detail.(description := Some(Trim(Join(descriptionLines, "\n"))));
    }
  }

  /** The Node path functions `resolveDetailFilePath` calls, as parameters. */
  datatype PathSemantics = PathSemantics(
    isAbsolute: string -> bool,
    dirname: string -> string,
    resolve: (string, string) -> string)

  /** `resolveDetailFilePath(detailPath, boardFilePath)`: absolute paths are kept as they are. */
  function ResolveDetailFilePath(paths: PathSemantics, detailPath: string, boardFilePath: string): (r: string)
    ensures paths.isAbsolute(detailPath) ==> r == detailPath
  {
    if paths.isAbsolute(detailPath) then detailPath
    else paths.resolve(paths.dirname(boardFilePath), detailPath)
  }

  /**
   * One task as `applyDetailsToBoard` leaves it. `read` is `readDetailFile`: the
   * contents of a file, or `None` when it cannot be read.
   */
  function ApplyDetail(t: Task, read: string -> Option<string>, paths: PathSemantics, boardFilePath: string): Task {
    if !Truthy(t.detailPath) then t
    else
      var content := read(ResolveDetailFilePath(paths, t.detailPath.value, boardFilePath));
      if !Truthy(content) then t.(steps := None, description := None)
      else
        var detail := ParseTaskDetail(content.value);
        t.(steps := detail.steps,
           description := if Truthy(detail.description) then detail.description else None)
  }

  function ApplyDetailsToTasks(tasks: seq<Task>, read: string -> Option<string>, paths: PathSemantics, boardFilePath: string): (r: seq<Task>)
    ensures |r| == |tasks|
    ensures forall k :: 0 <= k < |tasks| ==> r[k] == ApplyDetail(tasks[k], read, paths, boardFilePath)
  {
    if tasks == [] then []
    else [ApplyDetail(tasks[0], read, paths, boardFilePath)] + ApplyDetailsToTasks(tasks[1..], read, paths, boardFilePath)
  }

  function ApplyDetailsToColumns(columns: seq<Column>, read: string -> Option<string>, paths: PathSemantics, boardFilePath: string): (r: seq<Column>)
    ensures |r| == |columns|
    ensures forall k :: 0 <= k < |columns| ==>
      r[k] == columns[k].(tasks := ApplyDetailsToTasks(columns[k].tasks, read, paths, boardFilePath))
  {
    if columns == [] then []
    else [columns[0].(tasks := ApplyDetailsToTasks(columns[0].tasks, read, paths, boardFilePath))]
         + ApplyDetailsToColumns(columns[1..], read, paths, boardFilePath)
  }

  /** The board `applyDetailsToBoard` leaves: every task with a detail file has been updated from it. */
  function ApplyDetails(board: Board, read: string -> Option<string>, paths: PathSemantics, boardFilePath: string): Board {
    board.(columns := ApplyDetailsToColumns(board.columns, read, paths, boardFilePath))
  }

  /** `parseMarkdownWithDetails(content, boardFilePath)`. */
  function ParseMarkdownWithDetails(content: string, ids: nat -> string, read: string -> Option<string>,
                                    paths: PathSemantics, boardFilePath: string): Board {
    ApplyDetails(MarkdownParser.Parse(content, ids), read, paths, boardFilePath)
  }

  /**
   * `applyDetailsToBoard`: the two nested loops over columns and tasks, which
   * overwrite or delete `steps` and `description` of each task with a detail file.
   */
  method ApplyDetailsToBoard(board: Board, read: string -> Option<string>, paths: PathSemantics, boardFilePath: string)
    returns (result: Board)
    ensures result == ApplyDetails(board, read, paths, boardFilePath)
  {
    var columns := board.columns;
    for c := 0 to |columns|
      invariant |columns| == |board.columns|
      invariant forall k :: 0 <= k < c ==>
        columns[k] == board.columns[k].(tasks := ApplyDetailsToTasks(board.columns[k].tasks, read, paths, boardFilePath))
      invariant forall k :: c <= k < |columns| ==> columns[k] == board.columns[k]
    {
      var tasks := columns[c].tasks;
      for i := 0 to |tasks|
        invariant |tasks| == |board.columns[c].tasks|
        invariant forall k :: 0 <= k < i ==> tasks[k] == ApplyDetail(board.columns[c].tasks[k], read, paths, boardFilePath)
        invariant forall k :: i <= k < |tasks| ==> tasks[k] == board.columns[c].tasks[k]
      {
        var task := tasks[i];
        if !Truthy(task.detailPath) {
          continue;
        }
        var detailFilePath := ResolveDetailFilePath(paths, task.detailPath.value, boardFilePath);
        var detailContent := read(detailFilePath);
        if !Truthy(detailContent) {
          tasks := tasks[i := task.(steps := None, description := None)];
          continue;
        }
        var detail := ParseTaskDetailMarkdown(detailContent.value);
        if detail.steps.Some? {
          task := task.(steps := detail.steps);
        } else {
          task := task.(steps := None);
        }
        if Truthy(detail.description) {
          task := task.(description := detail.description);
        } else {
          task := task.(description := None);
        }
        assert task == ApplyDetail(board.columns[c].tasks[i], read, paths, boardFilePath);
        tasks := tasks[i := task];
      }
      assert tasks == ApplyDetailsToTasks(board.columns[c].tasks, read, paths, boardFilePath);
      columns := columns[c := columns[c].(tasks := tasks)];
    }
    assert columns == ApplyDetailsToColumns(board.columns, read, paths, boardFilePath);
    result := board.(columns := columns);
  }
}
