/**
 * Properties of the detail-file codec: the lines `generateTaskDetailMarkdown`
 * writes are read back by `parseTaskDetailMarkdown` as the task's non-empty
 * step list and its trimmed description, and `applyDetailsToBoard` only ever
 * touches those two fields.
 */
module DetailProperties {
  import opened Wrappers
  import opened JsString
  import opened KanbanModel
  import Dialect
  import MarkdownParser
  import MarkdownGenerator
  import ParserProperties
  import opened TaskDetail

  // ---------------------------------------------------------------------------
  // The scan, line by line
  // ---------------------------------------------------------------------------

  /** Outside a description block. */
  predicate OutsideCode(st: DetailState) {
    !(st.inCodeBlock && st.inDescription)
  }

  lemma {:induction false} DetailRunAppend(st: DetailState, a: seq<string>, b: seq<string>)
    ensures DetailRun(st, a + b) == DetailRun(DetailRun(st, a), b)
    decreases |a|
  {
    if a == [] {
      assert a + b == b;
    } else {
      assert (a + b)[0] == a[0];
      assert (a + b)[1..] == a[1..] + b;
      DetailRunAppend(DetailStep(st, a[0]), a[1..], b);
    }
  }

  lemma DetailRunOne(st: DetailState, line: string)
    ensures DetailRun(st, [line]) == DetailStep(st, line)
  {
    assert [line][1..] == [];
  }

  lemma DetailRunCons(st: DetailState, line: string, rest: seq<string>)
    ensures DetailRun(st, [line] + rest) == DetailRun(DetailStep(st, line), rest)
  {
    assert ([line] + rest)[1..] == rest;
  }

  /** A line that does not start with white space is never a steps header nor a fence. */
  lemma UnindentedLine(line: string)
    requires line != [] && !IsWhitespace(line[0])
    ensures !IsStepsHeader(line) && !IsFence(line)
    ensures MarkdownParser.MatchStep(line).None?
  {
    assert LeadingWhitespace(line) == 0;
  }

  /** The `# <id>` header line leaves the scan where it was. */
  lemma HeaderLineSkipped(st: DetailState, header: string)
    requires OutsideCode(st) && !st.inSteps
    requires header != [] && header[0] == '#'
    ensures DetailStep(st, header) == st
  {
    UnindentedLine(header);
  }

  /** A blank line outside a description block changes nothing. */
  lemma BlankLineSkipped(st: DetailState)
    requires OutsideCode(st)
    ensures DetailStep(st, "") == st
  {
    assert LeadingWhitespace("") == 0;
    assert Trim("") == "";
  }

  lemma StepsKeyLineShape()
    ensures MarkdownGenerator.KeyLine(Dialect.StepsKey) == "  " + "- steps:"
  {
  }

  /** `  - steps:` opens the step list. */
  lemma StepsHeaderOpens(st: DetailState)
    requires OutsideCode(st)
    ensures DetailStep(st, MarkdownGenerator.KeyLine(Dialect.StepsKey)) == st.(inSteps := true)
  {
    var line := MarkdownGenerator.KeyLine(Dialect.StepsKey);
    StepsKeyLineShape();
    ParserProperties.IndentedDash("  ", "- steps:");
    assert line[2 + 8..] == [];
    assert IsStepsHeader(line);
  }

  /** Texts the step line format carries unchanged: trimmed, on one line, not empty. */
  predicate StepsWritable(steps: seq<Step>) {
    forall k :: 0 <= k < |steps| ==> ParserProperties.Clean(steps[k].text) && steps[k].text != ""
  }

  /** Inside the step list, a generated step line appends its step. */
  lemma StepLineAppended(st: DetailState, step: Step)
    requires OutsideCode(st) && st.inSteps
    requires ParserProperties.Clean(step.text)
    ensures DetailStep(st, MarkdownGenerator.StepLine(step)) == st.(steps := st.steps + [step])
  {
    var mark := MarkdownGenerator.CheckMark(step.completed);
    var rest := [mark] + ("]" + (" " + step.text));
    ParserProperties.StepLineShape(mark, step.text);
    ParserProperties.IndentedDash("      ", "- [" + rest);
    assert !StartsWith("- [" + rest, "- steps:") by {
      assert ("- [" + rest)[2] == '[';
    }
    ParserProperties.StepLineRead(step);
  }

  lemma {:induction false} StepLinesAppended(st: DetailState, steps: seq<Step>)
    requires OutsideCode(st) && st.inSteps
    requires StepsWritable(steps)
    ensures DetailRun(st, MarkdownGenerator.StepLines(steps)) == st.(steps := st.steps + steps)
    decreases |steps|
  {
    if steps == [] {
      assert st.steps + steps == st.steps;
    } else {
      var head := MarkdownGenerator.StepLine(steps[0]);
      var rest := MarkdownGenerator.StepLines(steps[1..]);
      assert MarkdownGenerator.StepLines(steps) == [head] + rest;
      DetailRunCons(st, head, rest);
      var next := DetailStep(st, head);
      StepLineAppended(st, steps[0]);
      StepLinesAppended(next, steps[1..]);
      StepsJoined(st, next, steps, DetailRun(next, rest));
    }
  }

  lemma StepsJoined(st: DetailState, next: DetailState, steps: seq<Step>, r: DetailState)
    requires steps != []
    requires next == st.(steps := st.steps + [steps[0]])
    requires r == next.(steps := next.steps + steps[1..])
    ensures r == st.(steps := st.steps + steps)
  {
    assert st.steps + [steps[0]] + steps[1..] == st.steps + steps;
  }

  /** `    ```md` is an indented fence, not a step or the steps header. */
  lemma FenceOpenLine(line: string)
    requires line == "    ```md"
    ensures IsFence(line) && !IsStepsHeader(line)
  {
    assert line == "    " + "```md";
    assert "```md"[..3] == "```" && !StartsWith("```md", "- steps:");
    FenceAfterIndent("    ", "```md");
  }

  /** An indented line that starts with a fence after the indent is a fence and no steps header. */
  lemma FenceAfterIndent(ws: string, rest: string)
    requires ws != [] && AllWhitespace(ws) && StartsWith(rest, "```")
    ensures IsFence(ws + rest) && !IsStepsHeader(ws + rest)
  {
    assert rest[0] == '`';
    TrimKeepsHead(ws, rest);
    assert (ws + rest)[|ws|..] == rest;
    DiffersAt(rest, "- steps:", 0);
  }

  lemma FenceOpenNotStep(line: string)
    requires line == "    ```md"
    ensures MarkdownParser.MatchStep(line).None? && Trim(line) != ""
  {
    assert line == "    " + "```md";
    TrimKeepsHead("    ", "```md");
  }

  lemma FenceOpensStep(st: DetailState, line: string)
    requires OutsideCode(st)
    requires IsFence(line) && !IsStepsHeader(line)
    requires MarkdownParser.MatchStep(line).None? && Trim(line) != ""
    ensures DetailStep(st, line) == st.(inSteps := false, inDescription := true, inCodeBlock := true)
  {
  }

  /** `    ```md` ends the step list and opens the description block. */
  lemma FenceOpens(st: DetailState)
    requires OutsideCode(st)
    ensures DetailStep(st, "    ```md") == st.(inSteps := false, inDescription := true, inCodeBlock := true)
  {
    FenceOpenLine("    ```md");
    FenceOpenNotStep("    ```md");
    FenceOpensStep(st, "    ```md");
  }

  /**
   * A description line the indented block carries unchanged: it does not start
   * with white space (the reader strips a whole run of four or more) and is not
   * itself a closing fence.
   */
  predicate DescriptionLineWritable(l: string) {
    (l == [] || !IsWhitespace(l[0])) && Trim(l) != "```"
  }

  predicate DescriptionLinesWritable(lines: seq<string>) {
    forall k :: 0 <= k < |lines| ==> DescriptionLineWritable(lines[k])
  }

  lemma IndentedLineTrim(l: string)
    requires l == [] || !IsWhitespace(l[0])
    ensures Trim("    " + l) == Trim(l)
  {
    if l == [] {
      assert "    " + l == "    ";
      TrimAllWhitespace("    ");
      TrimAllWhitespace(l);
    } else {
      TrimKeepsHead("    ", l);
      TrimKeepsHead("", l);
      assert "" + l == l;
    }
  }

  lemma IndentedLineCleaned(l: string)
    requires l == [] || !IsWhitespace(l[0])
    ensures MarkdownParser.CleanDescriptionLine("    " + l) == l
  {
    if l == [] {
      assert "    " + l == "    ";
      assert LeadingWhitespace("    ") == 4;
    } else {
      TrimKeepsHead("    ", l);
      assert ("    " + l)[4..] == l;
    }
  }

  lemma DescriptionLineStep(st: DetailState, line: string, l: string)
    requires st.inCodeBlock && st.inDescription
    requires Trim(line) != "```" && MarkdownParser.CleanDescriptionLine(line) == l
    ensures DetailStep(st, line) == st.(descriptionLines := st.descriptionLines + [l])
  {
  }

  /** Inside the description block, an indented line is collected without its indentation. */
  lemma DescriptionLineKept(st: DetailState, l: string)
    requires st.inCodeBlock && st.inDescription
    requires DescriptionLineWritable(l)
    ensures DetailStep(st, "    " + l) == st.(descriptionLines := st.descriptionLines + [l])
  {
    IndentedLineTrim(l);
    IndentedLineCleaned(l);
    DescriptionLineStep(st, "    " + l, l);
  }

  lemma LinesJoined(st: DetailState, next: DetailState, lines: seq<string>, r: DetailState)
    requires lines != []
    requires next == st.(descriptionLines := st.descriptionLines + [lines[0]])
    requires r == next.(descriptionLines := next.descriptionLines + lines[1..])
    ensures r == st.(descriptionLines := st.descriptionLines + lines)
  {
    assert st.descriptionLines + [lines[0]] + lines[1..] == st.descriptionLines + lines;
  }

  lemma {:induction false} DescriptionLinesKept(st: DetailState, lines: seq<string>)
    requires st.inCodeBlock && st.inDescription
    requires DescriptionLinesWritable(lines)
    ensures DetailRun(st, MarkdownGenerator.IndentLines(lines))
            == st.(descriptionLines := st.descriptionLines + lines)
    decreases |lines|
  {
    if lines == [] {
      assert st.descriptionLines + lines == st.descriptionLines;
    } else {
      var head := "    " + lines[0];
      var rest := MarkdownGenerator.IndentLines(lines[1..]);
      assert MarkdownGenerator.IndentLines(lines) == [head] + rest;
      DetailRunCons(st, head, rest);
      var next := DetailStep(st, head);
      DescriptionLineKept(st, lines[0]);
      DescriptionLinesKept(next, lines[1..]);
      LinesJoined(st, next, lines, DetailRun(next, rest));
    }
  }

  lemma FenceCloseLine(line: string)
    requires line == "    ```"
    ensures Trim(line) == "```"
  {
    assert line == "    " + "```";
    TrimKeepsHead("    ", "```");
    TrimEndBeforeWhitespace("```", "");
    assert "```" + "" == "```";
  }

  lemma FenceClosesStep(st: DetailState, line: string)
    requires st.inCodeBlock && st.inDescription
    requires Trim(line) == "```"
    ensures DetailStep(st, line) == st.(inCodeBlock := false, inDescription := false)
  {
  }

  /** `    ```` closes the description block. */
  lemma FenceCloses(st: DetailState)
    requires st.inCodeBlock && st.inDescription
    ensures DetailStep(st, "    ```") == st.(inCodeBlock := false, inDescription := false)
  {
    FenceCloseLine("    ```");
    FenceClosesStep(st, "    ```");
  }

  // ---------------------------------------------------------------------------
  // The blocks of a generated detail file
  // ---------------------------------------------------------------------------

  /** Neither in a description block nor in a code fence. */
  predicate Idle(st: DetailState) {
    !st.inDescription && !st.inCodeBlock
  }

  /** A description the fenced block carries: one that is blank, or whose lines all are writable. */
  predicate DescriptionWritable(d: Option<string>) {
    d.Some? && Trim(d.value) != "" ==> '\r' !in d.value && DescriptionLinesWritable(Split(Trim(d.value), '\n'))
  }

  /** The steps a detail file written for `steps` holds. */
  function StepsWritten(steps: Option<seq<Step>>): seq<Step> {
    if steps.Some? && |steps.value| > 0 then steps.value else []
  }

  /** The description lines a detail file written for `d` holds. */
  function DescriptionLinesWritten(d: Option<string>): seq<string> {
    if d.Some? && Trim(d.value) != "" then Split(Trim(d.value), '\n') else []
  }

  lemma StepsListed(st: DetailState, steps: seq<Step>, afterHeader: DetailState, r: DetailState)
    requires afterHeader == st.(inSteps := true)
    requires r == afterHeader.(steps := afterHeader.steps + steps)
    ensures r == st.(inSteps := true, steps := st.steps + steps)
  {
  }

  /** The `steps` block of a detail file opens the list and appends every step. */
  lemma StepsBlockRead(st: DetailState, steps: Option<seq<Step>>)
    requires Idle(st)
    requires steps.Some? ==> StepsWritable(steps.value)
    ensures var r := DetailRun(st, MarkdownGenerator.StepsBlock(steps));
      if StepsWritten(steps) == [] then r == st else r == st.(inSteps := true, steps := st.steps + steps.value)
  {
    if StepsWritten(steps) != [] {
      var header := MarkdownGenerator.KeyLine(Dialect.StepsKey);
      var lines := MarkdownGenerator.StepLines(steps.value);
      assert MarkdownGenerator.StepsBlock(steps) == [header] + lines;
      DetailRunCons(st, header, lines);
      StepsHeaderOpens(st);
      var afterHeader := DetailStep(st, header);
      StepLinesAppended(afterHeader, steps.value);
      StepsListed(st, steps.value, afterHeader, DetailRun(afterHeader, lines));
    }
  }

  lemma FencedLines(st: DetailState, lines: seq<string>, fenced: DetailState, read: DetailState, r: DetailState)
    requires Idle(st)
    requires fenced == st.(inSteps := false, inDescription := true, inCodeBlock := true)
    requires read == fenced.(descriptionLines := fenced.descriptionLines + lines)
    requires r == read.(inCodeBlock := false, inDescription := false)
    ensures r == st.(inSteps := false, descriptionLines := st.descriptionLines + lines)
  {
  }

  /** The fenced block reads as the lines between its fences, unindented. */
  lemma FencedBlockRead(st: DetailState, lines: seq<string>)
    requires Idle(st)
    requires DescriptionLinesWritable(lines)
    ensures DetailRun(st, ["    ```md"] + MarkdownGenerator.IndentLines(lines) + ["    ```"])
            == st.(inSteps := false, descriptionLines := st.descriptionLines + lines)
  {
    var body := MarkdownGenerator.IndentLines(lines);
    DetailRunAppend(st, ["    ```md"] + body, ["    ```"]);
    DetailRunCons(st, "    ```md", body);
    FenceOpens(st);
    var fenced := DetailStep(st, "    ```md");
    DescriptionLinesKept(fenced, lines);
    var read := DetailRun(fenced, body);
    DetailRunOne(read, "    ```");
    FenceCloses(read);
    FencedLines(st, lines, fenced, read, DetailStep(read, "    ```"));
  }

  /** The description block reads as the lines of the trimmed description. */
  lemma DescriptionBlockRead(st: DetailState, d: Option<string>)
    requires Idle(st)
    requires DescriptionWritable(d)
    ensures var r := DetailRun(st, MarkdownGenerator.DescriptionBlock(d));
      if DescriptionLinesWritten(d) == [] then r == st
      else r == st.(inSteps := false, descriptionLines := st.descriptionLines + DescriptionLinesWritten(d))
  {
    if d.Some? && Trim(d.value) != "" {
      FencedBlockRead(st, Split(Trim(d.value), '\n'));
    }
  }

  /** The `# <id>` line a detail file starts with. */
  function Header(t: Task): string {
    "# " + (if t.id != "" then t.id else "Task")
  }

  lemma DetailLinesShape(t: Task)
    ensures MarkdownGenerator.DetailLines(t)
            == [Header(t), ""] + MarkdownGenerator.StepsBlock(t.steps) + MarkdownGenerator.DescriptionBlock(t.description)
  {
  }

  /** The header and the blank line after it leave the scan at its start. */
  lemma PreambleSkipped(header: string)
    requires header != [] && header[0] == '#'
    ensures DetailRun(DetailStart, [header, ""]) == DetailStart
  {
    assert [header, ""] == [header] + [""];
    DetailRunCons(DetailStart, header, [""]);
    HeaderLineSkipped(DetailStart, header);
    DetailRunOne(DetailStart, "");
    BlankLineSkipped(DetailStart);
  }

  /** The blocks of a detail file read back as its steps and its description lines. */
  lemma DetailLinesRead(t: Task)
    requires t.steps.Some? ==> StepsWritable(t.steps.value)
    requires DescriptionWritable(t.description)
    ensures var r := DetailRun(DetailStart, MarkdownGenerator.DetailLines(t));
      Idle(r) && r.steps == StepsWritten(t.steps) && r.descriptionLines == DescriptionLinesWritten(t.description)
  {
    var afterSteps := DetailRun(DetailStart, MarkdownGenerator.StepsBlock(t.steps));
    DetailLinesBlocks(t);
    assert Idle(afterSteps) && afterSteps.steps == StepsWritten(t.steps) && afterSteps.descriptionLines == [] by {
      StepsBlockRead(DetailStart, t.steps);
    }
    DescriptionBlockRead(afterSteps, t.description);
  }

  /** The header and its blank line leave the scan at its start; the two blocks follow. */
  lemma DetailLinesBlocks(t: Task)
    ensures DetailRun(DetailStart, MarkdownGenerator.DetailLines(t))
            == DetailRun(DetailRun(DetailStart, MarkdownGenerator.StepsBlock(t.steps)), MarkdownGenerator.DescriptionBlock(t.description))
  {
    DetailLinesShape(t);
    DetailRunBlocks([Header(t), ""], MarkdownGenerator.StepsBlock(t.steps), MarkdownGenerator.DescriptionBlock(t.description));
    PreambleSkipped(Header(t));
  }

  /** The scan of a detail file: the preamble, then the steps block, then the description block. */
  lemma DetailRunBlocks(preamble: seq<string>, stepsBlock: seq<string>, descriptionBlock: seq<string>)
    ensures DetailRun(DetailStart, preamble + stepsBlock + descriptionBlock)
            == DetailRun(DetailRun(DetailRun(DetailStart, preamble), stepsBlock), descriptionBlock)
  {
    DetailRunAppend(DetailStart, preamble + stepsBlock, descriptionBlock);
    DetailRunAppend(DetailStart, preamble, stepsBlock);
  }

  // ---------------------------------------------------------------------------
  // The text of a generated detail file
  // ---------------------------------------------------------------------------

  predicate OneLine(s: string) {
    '\n' !in s && '\r' !in s
  }

  predicate AllOneLine(lines: seq<string>) {
    forall k :: 0 <= k < |lines| ==> OneLine(lines[k])
  }

  lemma AllOneLineAppend(a: seq<string>, b: seq<string>)
    requires AllOneLine(a) && AllOneLine(b)
    ensures AllOneLine(a + b)
  {
    forall k | 0 <= k < |a + b| ensures OneLine((a + b)[k]) {
      if k >= |a| {
        assert (a + b)[k] == b[k - |a|];
      }
    }
  }

  lemma HeaderOneLine(t: Task)
    requires NoLineBreak(t.id)
    ensures OneLine(Header(t))
  {
    OneLineText(t.id);
  }

  lemma OneLineText(text: string)
    requires NoLineBreak(text)
    ensures OneLine(text)
  {
  }

  lemma StepLineOneLine(step: Step)
    requires NoLineBreak(step.text)
    ensures OneLine(MarkdownGenerator.StepLine(step))
  {
    OneLineText(step.text);
  }

  lemma StepsBlockOneLine(steps: Option<seq<Step>>)
    requires steps.Some? ==> StepsWritable(steps.value)
    ensures AllOneLine(MarkdownGenerator.StepsBlock(steps))
  {
    if steps.Some? && |steps.value| > 0 {
      var lines := MarkdownGenerator.StepLines(steps.value);
      forall k | 0 <= k < |lines| ensures OneLine(lines[k]) {
        StepLineOneLine(steps.value[k]);
      }
      AllOneLineAppend([MarkdownGenerator.KeyLine(Dialect.StepsKey)], lines);
    }
  }

  /** A character that is not in a string is not in its `trim`. */
  lemma NoCharInTrim(s: string, c: char)
    requires c !in s
    ensures c !in Trim(s)
  {
  }

  lemma DescriptionPartsOneLine(d: string)
    requires '\r' !in d
    ensures AllOneLine(Split(Trim(d), '\n'))
  {
    var parts := Split(Trim(d), '\n');
    SplitSpec(Trim(d), '\n');
    NoCharInTrim(d, '\r');
    forall k | 0 <= k < |parts| ensures OneLine(parts[k]) {
      NoCharInJoinedPart(parts, k, '\r', "\n");
    }
  }

  lemma IndentOneLine(lines: seq<string>)
    requires AllOneLine(lines)
    ensures AllOneLine(MarkdownGenerator.IndentLines(lines))
  {
    var indented := MarkdownGenerator.IndentLines(lines);
    forall k | 0 <= k < |indented| ensures OneLine(indented[k]) {
      assert indented[k] == "    " + lines[k];
    }
  }

  lemma DescriptionBlockOneLine(d: Option<string>)
    requires DescriptionWritable(d)
    ensures AllOneLine(MarkdownGenerator.DescriptionBlock(d))
  {
    if d.Some? && Trim(d.value) != "" {
      DescriptionPartsOneLine(d.value);
      var body := MarkdownGenerator.IndentLines(Split(Trim(d.value), '\n'));
      IndentOneLine(Split(Trim(d.value), '\n'));
      AllOneLineAppend(["    ```md"], body);
      AllOneLineAppend(["    ```md"] + body, ["    ```"]);
    }
  }

  /** The lines of a detail file as the reader sees them, after the final `trimEnd`. */
  function WrittenLines(t: Task): seq<string> {
    if MarkdownGenerator.StepsBlock(t.steps) == [] && MarkdownGenerator.DescriptionBlock(t.description) == []
    then [Header(t)]
    else MarkdownGenerator.DetailLines(t)
  }

  /** A line that ends in a visible character. */
  predicate EndsVisibly(line: string) {
    line != [] && !IsWhitespace(line[|line| - 1])
  }

  lemma UnlinesOne(line: string)
    ensures Unlines([line]) == line + "\n"
  {
    assert [line][1..] == [];
  }

  lemma UnlinesLast(lines: seq<string>)
    requires lines != []
    ensures Unlines(lines) == Unlines(lines[..|lines| - 1]) + lines[|lines| - 1] + "\n"
  {
    var init, last := lines[..|lines| - 1], lines[|lines| - 1];
    InitLast(lines);
    UnlinesAppend(init, [last]);
    UnlinesOne(last);
  }

  lemma InitLast<T>(s: seq<T>)
    requires s != []
    ensures s[..|s| - 1] + [s[|s| - 1]] == s
  {
  }

  /** `trimEnd` followed by one newline gives back text whose last line ends visibly. */
  lemma TrimEndLastLine(lines: seq<string>)
    requires lines != [] && EndsVisibly(lines[|lines| - 1])
    ensures TrimEnd(Unlines(lines)) + "\n" == Unlines(lines)
  {
    UnlinesLast(lines);
    BodyEndsVisibly(Unlines(lines[..|lines| - 1]), lines[|lines| - 1]);
    TrimEndNewline(Unlines(lines[..|lines| - 1]) + lines[|lines| - 1]);
  }

  lemma BodyEndsVisibly(before: string, line: string)
    requires EndsVisibly(line)
    ensures EndsVisibly(before + line)
  {
    assert (before + line)[|before + line| - 1] == line[|line| - 1];
  }

  lemma TrimEndNewline(body: string)
    requires EndsVisibly(body)
    ensures TrimEnd(body + "\n") + "\n" == body + "\n"
  {
    assert AllWhitespace("\n") by {
      assert "\n"[0] == '\n';
    }
    TrimEndBeforeWhitespace(body, "\n");
  }

  lemma HeaderEndsVisibly(t: Task)
    requires ParserProperties.Clean(t.id)
    ensures EndsVisibly(Header(t)) && Header(t)[0] == '#'
  {
  }

  /** With nothing after the header, the blank line after it is trimmed away. */
  lemma BareDetailText(t: Task)
    requires ParserProperties.Clean(t.id)
    ensures TrimEnd(Unlines([Header(t), ""])) + "\n" == Unlines([Header(t)])
  {
    HeaderEndsVisibly(t);
    UnlinesAppend([Header(t)], [""]);
    assert [Header(t)] + [""] == [Header(t), ""];
    UnlinesOne(Header(t));
    UnlinesOne("");
    assert Header(t) + "\n" + ("" + "\n") == Header(t) + "\n\n";
    TrimEndBeforeWhitespace(Header(t), "\n\n");
  }

  lemma StepLineEndsVisibly(step: Step)
    requires step.text != [] && IsTrimmed(step.text)
    ensures EndsVisibly(MarkdownGenerator.StepLine(step))
  {
    var line := MarkdownGenerator.StepLine(step);
    assert line[|line| - 1] == step.text[|step.text| - 1];
  }

  /** The last line of a detail file with steps or a description ends visibly. */
  lemma DetailLastLine(t: Task)
    requires t.steps.Some? ==> StepsWritable(t.steps.value)
    requires MarkdownGenerator.StepsBlock(t.steps) + MarkdownGenerator.DescriptionBlock(t.description) != []
    ensures var lines := MarkdownGenerator.DetailLines(t); EndsVisibly(lines[|lines| - 1])
  {
    var preamble := [Header(t), ""];
    var stepsBlock := MarkdownGenerator.StepsBlock(t.steps);
    var descriptionBlock := MarkdownGenerator.DescriptionBlock(t.description);
    var lines := MarkdownGenerator.DetailLines(t);
    assert lines == (preamble + stepsBlock) + descriptionBlock by {
      DetailLinesShape(t);
    }
    if descriptionBlock != [] {
      LastOfAppend(preamble + stepsBlock, descriptionBlock);
      DescriptionBlockLast(t.description);
    } else {
      assert lines == preamble + stepsBlock;
      LastOfAppend(preamble, stepsBlock);
      StepsBlockLast(t.steps.value);
    }
  }

  lemma LastOfAppend<T>(a: seq<T>, b: seq<T>)
    requires b != []
    ensures (a + b)[|a + b| - 1] == b[|b| - 1]
  {
  }

  /** A description block ends with the closing fence. */
  lemma DescriptionBlockLast(description: Option<string>)
    requires MarkdownGenerator.DescriptionBlock(description) != []
    ensures var block := MarkdownGenerator.DescriptionBlock(description);
      EndsVisibly(block[|block| - 1])
  {
    var block := MarkdownGenerator.DescriptionBlock(description);
    var body := MarkdownGenerator.IndentLines(Split(Trim(description.value), '\n'));
    assert block == (["    ```md"] + body) + ["    ```"];
    LastOfAppend(["    ```md"] + body, ["    ```"]);
    ClosingFenceVisible();
  }

  lemma ClosingFenceVisible()
    ensures EndsVisibly("    ```")
  {
    assert "    ```"[6] == '`';
  }

  /** A steps block ends with the line of its last step. */
  lemma StepsBlockLast(steps: seq<Step>)
    requires StepsWritable(steps)
    requires MarkdownGenerator.StepsBlock(Some(steps)) != []
    ensures var block := MarkdownGenerator.StepsBlock(Some(steps));
      EndsVisibly(block[|block| - 1])
  {
    var stepLines := MarkdownGenerator.StepLines(steps);
    LastOfAppend([MarkdownGenerator.KeyLine(Dialect.StepsKey)], stepLines);
    StepLineEndsVisibly(steps[|steps| - 1]);
  }

  /** `generateTaskDetailMarkdown(t)` is its lines, each followed by a newline. */
  lemma DetailTextLines(t: Task)
    requires ParserProperties.Clean(t.id)
    requires t.steps.Some? ==> StepsWritable(t.steps.value)
    ensures MarkdownGenerator.GenerateTaskDetailMarkdown(t) == Unlines(WrittenLines(t))
  {
    DetailLinesShape(t);
    if MarkdownGenerator.StepsBlock(t.steps) == [] && MarkdownGenerator.DescriptionBlock(t.description) == [] {
      assert MarkdownGenerator.DetailLines(t) == [Header(t), ""];
      BareDetailText(t);
    } else {
      DetailLastLine(t);
      TrimEndLastLine(MarkdownGenerator.DetailLines(t));
    }
  }

  lemma WrittenLinesOneLine(t: Task)
    requires ParserProperties.Clean(t.id)
    requires t.steps.Some? ==> StepsWritable(t.steps.value)
    requires DescriptionWritable(t.description)
    ensures AllOneLine(WrittenLines(t))
  {
    HeaderOneLine(t);
    StepsBlockOneLine(t.steps);
    DescriptionBlockOneLine(t.description);
    DetailLinesShape(t);
    AllOneLineAppend([Header(t), ""], MarkdownGenerator.StepsBlock(t.steps));
    AllOneLineAppend([Header(t), ""] + MarkdownGenerator.StepsBlock(t.steps), MarkdownGenerator.DescriptionBlock(t.description));
  }

  /** The lines the reader splits a generated detail file into. */
  lemma DetailFileLines(t: Task)
    requires ParserProperties.Clean(t.id)
    requires t.steps.Some? ==> StepsWritable(t.steps.value)
    requires DescriptionWritable(t.description)
    ensures Lines(MarkdownGenerator.GenerateTaskDetailMarkdown(t)) == WrittenLines(t) + [""]
  {
    DetailTextLines(t);
    WrittenLinesOneLine(t);
    LinesOfUnlines(WrittenLines(t));
  }

  /** What the reader makes of the scan's end state, when it holds the written steps and lines. */
  lemma DetailOfWritten(t: Task, r: DetailState)
    requires r.steps == StepsWritten(t.steps)
    requires r.descriptionLines == DescriptionLinesWritten(t.description)
    ensures DetailOf(r) == Detail(
      if t.steps.Some? && |t.steps.value| > 0 then t.steps else None,
      if t.description.Some? && Trim(t.description.value) != "" then Some(Trim(t.description.value)) else None)
  {
    if t.description.Some? && Trim(t.description.value) != "" {
      var text := Trim(t.description.value);
      SplitSpec(text, '\n');
      assert "\n" == ['\n'];
      TrimIdempotent(t.description.value);
    }
  }

  lemma WrittenRun(t: Task)
    requires ParserProperties.Clean(t.id)
    requires t.steps.Some? ==> StepsWritable(t.steps.value)
    requires DescriptionWritable(t.description)
    ensures var r := DetailRun(DetailStart, WrittenLines(t) + [""]);
      r.steps == StepsWritten(t.steps) && r.descriptionLines == DescriptionLinesWritten(t.description)
  {
    if MarkdownGenerator.StepsBlock(t.steps) == [] && MarkdownGenerator.DescriptionBlock(t.description) == [] {
      assert WrittenLines(t) + [""] == [Header(t), ""];
      HeaderEndsVisibly(t);
      PreambleSkipped(Header(t));
    } else {
      var lines := MarkdownGenerator.DetailLines(t);
      DetailRunAppend(DetailStart, lines, [""]);
      DetailLinesRead(t);
      var r := DetailRun(DetailStart, lines);
      DetailRunOne(r, "");
      BlankLineSkipped(r);
    }
  }

  /**
   * Reading a generated detail file gives back the task's steps when it has
   * some and its trimmed description when that is not blank, and nothing else.
   * It holds for ids on one line without surrounding white space, steps whose
   * texts are trimmed, non-empty and on one line, and descriptions without
   * carriage returns whose lines do not start with white space and are not a
   * bare fence.
   */
  lemma DetailRoundTrip(t: Task)
    requires ParserProperties.Clean(t.id)
    requires t.steps.Some? ==> StepsWritable(t.steps.value)
    requires DescriptionWritable(t.description)
    ensures ParseTaskDetail(MarkdownGenerator.GenerateTaskDetailMarkdown(t)) == Detail(
      if t.steps.Some? && |t.steps.value| > 0 then t.steps else None,
      if t.description.Some? && Trim(t.description.value) != "" then Some(Trim(t.description.value)) else None)
  {
    DetailFileLines(t);
    WrittenRun(t);
    DetailOfWritten(t, DetailRun(DetailStart, WrittenLines(t) + [""]));
  }

  // ---------------------------------------------------------------------------
  // Applying detail files to a board
  // ---------------------------------------------------------------------------

  /** Only `steps` and `description` change, and a task without a detail file not at all. */
  lemma ApplyDetailFrame(t: Task, read: string -> Option<string>, paths: PathSemantics, boardFilePath: string)
    ensures ApplyDetail(t, read, paths, boardFilePath).(steps := t.steps, description := t.description) == t
    ensures !Truthy(t.detailPath) ==> ApplyDetail(t, read, paths, boardFilePath) == t
  {
  }

  /** A detail file that cannot be read, or is empty, deletes both fields. */
  lemma ApplyDetailUnreadable(t: Task, read: string -> Option<string>, paths: PathSemantics, boardFilePath: string)
    requires Truthy(t.detailPath)
    requires !Truthy(read(ResolveDetailFilePath(paths, t.detailPath.value, boardFilePath)))
    ensures ApplyDetail(t, read, paths, boardFilePath).steps.None?
    ensures ApplyDetail(t, read, paths, boardFilePath).description.None?
  {
  }

  /**
   * After a detail file has been applied, the steps are absent or non-empty and
   * the description is absent or a non-blank trimmed text.
   */
  lemma ApplyDetailNormalised(t: Task, read: string -> Option<string>, paths: PathSemantics, boardFilePath: string)
    requires Truthy(t.detailPath)
    ensures var r := ApplyDetail(t, read, paths, boardFilePath);
      (r.steps.Some? ==> |r.steps.value| > 0) && (r.description.Some? ==> r.description.value != "" && IsTrimmed(r.description.value))
  {
  }

  /** Applying the detail files twice is applying them once. */
  lemma ApplyDetailIdempotent(t: Task, read: string -> Option<string>, paths: PathSemantics, boardFilePath: string)
    ensures ApplyDetail(ApplyDetail(t, read, paths, boardFilePath), read, paths, boardFilePath)
            == ApplyDetail(t, read, paths, boardFilePath)
  {
  }

  /**
   * A task whose detail file holds what `generateTaskDetailMarkdown` wrote for it
   * gets back its non-empty steps and its trimmed, non-blank description.
   */
  lemma ApplyGeneratedDetail(t: Task, read: string -> Option<string>, paths: PathSemantics, boardFilePath: string)
    requires Truthy(t.detailPath)
    requires read(ResolveDetailFilePath(paths, t.detailPath.value, boardFilePath))
             == Some(MarkdownGenerator.GenerateTaskDetailMarkdown(t))
    requires ParserProperties.Clean(t.id)
    requires t.steps.Some? ==> StepsWritable(t.steps.value)
    requires DescriptionWritable(t.description)
    ensures ApplyDetail(t, read, paths, boardFilePath) == t.(
      steps := if t.steps.Some? && |t.steps.value| > 0 then t.steps else None,
      description := if t.description.Some? && Trim(t.description.value) != "" then Some(Trim(t.description.value)) else None)
  {
    var md := MarkdownGenerator.GenerateTaskDetailMarkdown(t);
    AppliedContent(t, read, paths, boardFilePath, md);
    DetailRoundTrip(t);
  }

  /** A task whose detail file reads as non-empty text takes its steps and non-blank description from that text. */
  lemma AppliedContent(t: Task, read: string -> Option<string>, paths: PathSemantics, boardFilePath: string, content: string)
    requires Truthy(t.detailPath) && content != ""
    requires read(ResolveDetailFilePath(paths, t.detailPath.value, boardFilePath)) == Some(content)
    ensures var d := ParseTaskDetail(content);
      ApplyDetail(t, read, paths, boardFilePath)
      == t.(steps := d.steps, description := if Truthy(d.description) then d.description else None)
  {
  }

  lemma ApplyDetailsToTasksIdempotent(tasks: seq<Task>, read: string -> Option<string>, paths: PathSemantics, boardFilePath: string)
    ensures ApplyDetailsToTasks(ApplyDetailsToTasks(tasks, read, paths, boardFilePath), read, paths, boardFilePath)
            == ApplyDetailsToTasks(tasks, read, paths, boardFilePath)
  {
    var once := ApplyDetailsToTasks(tasks, read, paths, boardFilePath);
    forall k | 0 <= k < |tasks|
      ensures ApplyDetailsToTasks(once, read, paths, boardFilePath)[k] == once[k]
    {
      ApplyDetailIdempotent(tasks[k], read, paths, boardFilePath);
    }
  }

  /** Loading the detail files a second time changes nothing. */
  lemma ApplyDetailsIdempotent(board: Board, read: string -> Option<string>, paths: PathSemantics, boardFilePath: string)
    ensures ApplyDetails(ApplyDetails(board, read, paths, boardFilePath), read, paths, boardFilePath)
            == ApplyDetails(board, read, paths, boardFilePath)
  {
    var once := ApplyDetails(board, read, paths, boardFilePath);
    forall k | 0 <= k < |board.columns|
      ensures ApplyDetails(once, read, paths, boardFilePath).columns[k] == once.columns[k]
    {
      ApplyDetailsToTasksIdempotent(board.columns[k].tasks, read, paths, boardFilePath);
    }
  }
}
