/**
 * What the board parser of src/markdownParser.ts promises, line by line: the
 * reserved keys, the property and step recognisers, the column and task headings,
 * the title rule, the mode invariant of the scan and task finalisation.
 */
module ParserProperties {
  import opened Wrappers
  import opened JsString
  import opened KanbanModel
  import Dialect
  import opened MarkdownParser
  import MarkdownGenerator

  // ---------------------------------------------------------------------------
  // Reserved keys
  // ---------------------------------------------------------------------------

  lemma NoColonInKeyName(k: Dialect.PropertyKey)
    ensures forall i :: 0 <= i < |Dialect.KeyName(k)| ==> Dialect.KeyName(k)[i] != ':'
    ensures |Dialect.KeyName(k)| > 0 && Dialect.KeyName(k)[0] != '['
  {
  }

  lemma KeyNameInjective(a: Dialect.PropertyKey, b: Dialect.PropertyKey)
    requires Dialect.KeyName(a) == Dialect.KeyName(b)
    ensures a == b
  {
  }

  /** No key followed by its colon is a prefix of another key's text: the alternation is unambiguous. */
  lemma KeyPrefixUnique(a: Dialect.PropertyKey, b: Dialect.PropertyKey, rest: string)
    requires StartsWith(Dialect.KeyName(a) + ":" + rest, Dialect.KeyName(b) + ":")
    ensures a == b
  {
    NoColonInKeyName(a);
    NoColonInKeyName(b);
    ColonPrefix(Dialect.KeyName(a), Dialect.KeyName(b), rest);
    KeyNameInjective(a, b);
  }

  /** Of two colon-free words, the one whose colon starts the other's text is the same word. */
  lemma ColonPrefix(A: string, B: string, rest: string)
    requires forall i :: 0 <= i < |A| ==> A[i] != ':'
    requires forall i :: 0 <= i < |B| ==> B[i] != ':'
    requires StartsWith(A + ":" + rest, B + ":")
    ensures A == B
  {
    var s := A + ":" + rest;
    assert s[..|B| + 1] == B + ":";
    assert s[|A|] == ':';
    assert s[|B|] == (B + ":")[|B|] == ':';
    assert forall i :: 0 <= i < |A| ==> s[i] == A[i] != ':';
    assert forall i :: 0 <= i < |B| ==> s[i] == s[..|B| + 1][i] == B[i] != ':';
    assert |A| == |B|;
    assert A == s[..|A|] == B;
  }

  /** The text after a property bullet's dash names exactly one reserved key. */
  lemma KeyAtKeyText(k: Dialect.PropertyKey, rest: string)
    ensures KeyAt(Dialect.KeyName(k) + ":" + rest) == Some((k, rest))
  {
    var s := Dialect.KeyName(k) + ":" + rest;
    assert s[..|Dialect.KeyName(k)| + 1] == Dialect.KeyName(k) + ":";
    Dialect.ReservedKeysComplete(k);
    FirstKeyInSpec(s, Dialect.ReservedKeys);
    var j := KeyAt(s);
    assert j.Some?;
    KeyPrefixUnique(k, j.value.0, rest);
    assert s[|Dialect.KeyName(k)| + 1..] == rest;
    assert s == Dialect.KeyName(k) + ":" + j.value.1;
    assert s[|Dialect.KeyName(k)| + 1..] == j.value.1;
  }

  /** No reserved key starts with `[`, so a checklist bullet is never a property. */
  lemma KeyAtBracket(rest: string)
    ensures KeyAt("[" + rest) == None
  {
    FirstKeyInSpec("[" + rest, Dialect.ReservedKeys);
    forall k | k in Dialect.ReservedKeys
      ensures !StartsWith("[" + rest, Dialect.KeyName(k) + ":")
    {
      NoColonInKeyName(k);
      DiffersAt("[" + rest, Dialect.KeyName(k) + ":", 0);
    }
  }

  // ---------------------------------------------------------------------------
  // Property and step lines
  // ---------------------------------------------------------------------------

  /** A value fits in a property line when it is one trimmed line. */
  predicate Clean(s: string) {
    IsTrimmed(s) && NoLineBreak(s)
  }

  /** `- <rest>` starts with the dash, and the rest follows it. */
  lemma DashShape(rest: string)
    ensures StartsWith("- " + rest, "- ") && ("- " + rest)[2..] == rest
    ensures StartsWith("- [" + rest, "- [") && ("- [" + rest)[3..] == rest
  {
    assert ("- " + rest)[..2] == "- ";
    assert ("- [" + rest)[..3] == "- [";
  }

  /** The leading white space of `ws + core` is `ws` when `core` starts with a dash. */
  lemma IndentedDash(ws: string, core: string)
    requires AllWhitespace(ws) && core != [] && core[0] == '-'
    ensures LeadingWhitespace(ws + core) == |ws| && (ws + core)[|ws|..] == core
  {
    TrimKeepsHead(ws, core);
    assert (ws + core)[|ws|..] == core;
  }

  /** A bullet indented by two is matched on what follows its dash. */
  lemma PropertyBullet(rest: string)
    ensures MatchProperty("  " + ("- " + rest)) == MatchPropertyText(rest)
  {
    IndentedDash("  ", "- " + rest);
    DashShape(rest);
  }

  /** A checklist bullet indented by six is matched on what follows `- [`, and its text is no key. */
  lemma StepBullet(rest: string)
    ensures MatchStep("      " + ("- [" + rest)) == MatchStepText(rest)
    ensures MatchProperty("      " + ("- [" + rest)) == MatchPropertyText("[" + rest)
  {
    IndentedDash("      ", "- [" + rest);
    DashShape(rest);
    assert "- [" + rest == "- " + ("[" + rest);
    DashShape("[" + rest);
  }

  /** `<key>:<tail>` names the key, with the tail trimmed as the value. */
  lemma KeyText(k: Dialect.PropertyKey, tail: string)
    requires NoLineBreak(TrimStart(tail))
    ensures MatchPropertyText(Dialect.KeyName(k) + ":" + tail) == Some((k, Trim(TrimStart(tail))))
  {
    KeyAtKeyText(k, tail);
  }

  lemma KeyLineShape(k: Dialect.PropertyKey, tail: string)
    ensures MarkdownGenerator.KeyLine(k) + tail == "  " + ("- " + (Dialect.KeyName(k) + ":" + tail))
  {
    IndentedKeyShape(Dialect.KeyName(k), tail);
  }

  lemma IndentedKeyShape(name: string, tail: string)
    ensures "  - " + name + ":" + tail == "  " + ("- " + (name + ":" + tail))
  {
    assert "  - " == "  " + "- ";
  }

  /** A line `  - <key>:<tail>` names the key, with the tail trimmed as the value. */
  lemma KeyLineRead(k: Dialect.PropertyKey, tail: string)
    requires NoLineBreak(TrimStart(tail))
    ensures MatchProperty(MarkdownGenerator.KeyLine(k) + tail) == Some((k, Trim(TrimStart(tail))))
  {
    KeyLineShape(k, tail);
    PropertyBullet(Dialect.KeyName(k) + ":" + tail);
    KeyText(k, tail);
  }

  /** A recognised property value is one trimmed line: `.` stops at line terminators. */
  lemma MatchPropertyClean(line: string)
    ensures MatchProperty(line).Some? ==> Clean(MatchProperty(line).value.1)
  {
  }

  /** A recognised step text is one trimmed line. */
  lemma MatchStepClean(line: string)
    ensures MatchStep(line).Some? ==> Clean(MatchStep(line).value.text)
  {
  }

  /** A generated property line reads back as its key and value. */
  lemma PropertyLineRead(k: Dialect.PropertyKey, v: string)
    requires Clean(v)
    ensures MatchProperty(MarkdownGenerator.PropertyLine(k, v)) == Some((k, v))
  {
    assert MarkdownGenerator.PropertyLine(k, v) == MarkdownGenerator.KeyLine(k) + (" " + v);
    TrimStartAfterWhitespace(" ", v);
    TrimOfTrimmed(v);
    KeyLineRead(k, " " + v);
  }

  /** A bare `  - <key>:` line, such as the `  - steps:` header, reads as its key with an empty value. */
  lemma BareKeyLineRead(k: Dialect.PropertyKey)
    ensures MatchProperty(MarkdownGenerator.KeyLine(k)) == Some((k, ""))
  {
    var line := MarkdownGenerator.KeyLine(k);
    var tail: string := [];
    assert line + tail == line;
    EmptyTrims(tail);
    KeyLineRead(k, tail);
  }

  lemma EmptyTrims(s: string)
    requires s == []
    ensures NoLineBreak(TrimStart(s)) && Trim(TrimStart(s)) == []
  {
    assert TrimStart(s) == s;
    assert TrimEnd(s) == s;
  }

  /** `[ x]] <text>` reads as the step with that text, completed exactly for `x`. */
  lemma StepText(mark: char, text: string)
    requires Clean(text) && (mark == 'x' || mark == ' ')
    ensures MatchStepText([mark] + ("]" + (" " + text))) == Some(Step(text, mark == 'x'))
  {
    var rest := [mark] + ("]" + (" " + text));
    assert BoxAt(rest) && rest[0] == mark by {
      assert rest[1] == ']';
    }
    assert TrimStart(rest[2..]) == text by {
      assert rest[2..] == " " + text;
      TrimStartAfterWhitespace(" ", text);
    }
    BoxedStep(rest, text);
  }

  lemma BoxedStep(s: string, text: string)
    requires BoxAt(s) && TrimStart(s[2..]) == text && Clean(text)
    ensures MatchStepText(s) == Some(Step(text, s[0] == 'x'))
  {
    TrimOfTrimmed(text);
  }

  lemma StepLineShape(mark: char, text: string)
    ensures "      - " + ("[" + [mark] + "]") + " " + text == "      " + ("- [" + ([mark] + ("]" + (" " + text))))
  {
  }

  /**
   * A generated step line reads back as the same step: the text, and `completed`
   * exactly when the box is `[x]`; it is never taken for a property line.
   */
  lemma StepLineRead(step: Step)
    requires Clean(step.text)
    ensures MatchStep(MarkdownGenerator.StepLine(step)) == Some(step)
    ensures MatchProperty(MarkdownGenerator.StepLine(step)) == None
  {
    var mark := MarkdownGenerator.CheckMark(step.completed);
    var rest := [mark] + ("]" + (" " + step.text));
    StepLineShape(mark, step.text);
    StepBullet(rest);
    StepText(mark, step.text);
    KeyAtBracket(rest);
  }

  /** No line the step pattern matches is a property line: after `- ` comes `[`, which starts no key. */
  lemma StepLineNoProperty(line: string)
    requires MatchStep(line).Some?
    ensures MatchProperty(line) == None
  {
    StepBulletFacts(line);
    BracketShape(line, LeadingWhitespace(line));
    DashBracketNoProperty(line);
  }

  /** What the step pattern needs of a line: six or more white-space characters, then `- [`. */
  lemma StepBulletFacts(line: string)
    requires MatchStep(line).Some?
    ensures LeadingWhitespace(line) >= 6 && StartsWith(line[LeadingWhitespace(line)..], "- [")
  {
  }

  /** An indented line with a bracket right after its dash is no property line. */
  lemma DashBracketNoProperty(line: string)
    requires LeadingWhitespace(line) >= 1 && StartsWith(line[LeadingWhitespace(line)..], "- ")
    requires LeadingWhitespace(line) + 2 < |line| && line[LeadingWhitespace(line) + 2] == '['
    ensures MatchProperty(line) == None
  {
    IndentedDashMatch(line);
    BracketText(line[LeadingWhitespace(line) + 2..]);
  }

  /** On an indented line that starts with `- `, the property pattern looks at the text after the dash. */
  lemma IndentedDashMatch(line: string)
    requires LeadingWhitespace(line) >= 1 && StartsWith(line[LeadingWhitespace(line)..], "- ")
    ensures LeadingWhitespace(line) + 2 <= |line|
    ensures MatchProperty(line) == MatchPropertyText(line[LeadingWhitespace(line) + 2..])
  {
  }

  /** A line whose text from `lead` on starts with `- [` has the bracket right after the dash. */
  lemma BracketShape(line: string, lead: nat)
    requires lead <= |line| && StartsWith(line[lead..], "- [")
    ensures lead + 3 <= |line| && StartsWith(line[lead..], "- ") && line[lead + 2] == '['
  {
    assert line[lead..][..3] == "- [";
    assert line[lead..][..2] == "- ";
  }

  /** Text after the dash that opens with a bracket is no property. */
  lemma BracketText(after: string)
    requires |after| >= 1 && after[0] == '['
    ensures MatchPropertyText(after) == None
  {
    assert after == "[" + after[1..];
    KeyAtBracket(after[1..]);
  }

  /** An indented line whose text starts with `- ` trims to a line that starts with the dash. */
  lemma IndentedDashLine(line: string)
    requires LeadingWhitespace(line) >= 1 && StartsWith(line[LeadingWhitespace(line)..], "- ")
    ensures StartsWith(Trim(line), "-") && !StartsWith(line, "- ")
  {
    var rest := line[LeadingWhitespace(line)..];
    IndentedStart(line);
    DashStart(rest);
    TrimEndKeepsPrefix(rest, "-");
    DiffersAt(line, "- ", 0);
  }

  /** A line with leading white space starts with white space. */
  lemma IndentedStart(line: string)
    requires LeadingWhitespace(line) >= 1
    ensures IsWhitespace(line[0])
  {
  }

  /** Text that starts with `- ` starts with the dash alone. */
  lemma DashStart(s: string)
    requires StartsWith(s, "- ")
    ensures StartsWith(s, "-")
  {
    assert s[..1] == s[..2][..1];
  }

  /** A line that starts with a dash is no fence, heading or subheading. */
  lemma DashNotHeading(trimmed: string)
    requires StartsWith(trimmed, "-")
    ensures trimmed != "" && !StartsWith(trimmed, "```") && !StartsWith(trimmed, "# ")
    ensures !StartsWith(trimmed, "## ") && !StartsWith(trimmed, "### ")
  {
    DiffersAt(trimmed, "```", 0);
    DiffersAt(trimmed, "# ", 0);
    DiffersAt(trimmed, "## ", 0);
    DiffersAt(trimmed, "### ", 0);
  }

  lemma TaskLineBranch(st: ParserState, line: string, ids: nat -> string)
    requires !st.inCodeBlock && !StartsWith(Trim(line), "```")
    requires !StartsWith(Trim(line), "# ") && !StartsWith(Trim(line), "## ")
    ensures Examine(st, line, ids) == ExamineTaskLine(st, line, Trim(line), ids)
  {
  }

  /**
   * An indented bullet outside a code block is handled by the task-line branches,
   * and it is no task title.
   */
  lemma IndentedBulletLine(st: ParserState, line: string, ids: nat -> string)
    requires !st.inCodeBlock
    requires LeadingWhitespace(line) >= 1 && StartsWith(line[LeadingWhitespace(line)..], "- ")
    ensures Examine(st, line, ids) == ExamineTaskLine(st, line, Trim(line), ids)
    ensures Trim(line) != "" && !IsTaskTitle(line, Trim(line))
  {
    IndentedDashLine(line);
    DashNotHeading(Trim(line));
    TaskLineBranch(st, line, ids);
  }

  lemma StepBulletShape(line: string)
    requires MatchStep(line).Some?
    ensures LeadingWhitespace(line) >= 1 && StartsWith(line[LeadingWhitespace(line)..], "- ")
    ensures !IsFenceOpen(line)
  {
    StepBulletFacts(line);
    DashBracketShape(line[LeadingWhitespace(line)..]);
  }

  lemma DashBracketShape(s: string)
    requires StartsWith(s, "- [")
    ensures StartsWith(s, "- ") && !StartsWith(s, "```md")
  {
    StartsWithTrans(s, "- [", "- ");
    DiffersAt(s, "```md", 0);
  }

  lemma PropertyBulletShape(line: string)
    requires MatchProperty(line).Some?
    ensures LeadingWhitespace(line) >= 1 && StartsWith(line[LeadingWhitespace(line)..], "- ")
  {
  }

  lemma TaskLineProperty(st: ParserState, line: string, trimmed: string, ids: nat -> string)
    requires !st.inCodeBlock && st.currentTask.Some? && st.inTaskProperties && !IsTaskTitle(line, trimmed)
    requires MatchProperty(line).Some?
    ensures ExamineTaskLine(st, line, trimmed, ids)
            == Outcome(st.(currentTask := Some(SetProperty(st.currentTask.value, MatchProperty(line).value.0,
                                                           MatchProperty(line).value.1))), false)
  {
  }

  lemma TaskLineStep(st: ParserState, line: string, trimmed: string, ids: nat -> string)
    requires !st.inCodeBlock && st.currentTask.Some? && st.inTaskProperties && !IsTaskTitle(line, trimmed)
    requires MatchProperty(line).None? && st.currentTask.value.steps.Some? && MatchStep(line).Some?
    ensures ExamineTaskLine(st, line, trimmed, ids)
            == Outcome(st.(currentTask := Some(st.currentTask.value.(
                 steps := Some(st.currentTask.value.steps.value + [MatchStep(line).value])))), false)
  {
    var t := st.currentTask.value;
    assert ParseTaskStep(line, t) == Some(t.(steps := Some(t.steps.value + [MatchStep(line).value])));
    TaskLineStepBranch(st, line, trimmed, ids);
  }

  lemma TaskLineStepBranch(st: ParserState, line: string, trimmed: string, ids: nat -> string)
    requires !st.inCodeBlock && st.currentTask.Some? && st.inTaskProperties && !IsTaskTitle(line, trimmed)
    requires ParseTaskProperty(line, st.currentTask.value).None? && ParseTaskStep(line, st.currentTask.value).Some?
    ensures ExamineTaskLine(st, line, trimmed, ids) == Outcome(st.(currentTask := ParseTaskStep(line, st.currentTask.value)), false)
  {
  }

  lemma TaskLineStepWithoutList(st: ParserState, line: string, trimmed: string, ids: nat -> string)
    requires !st.inCodeBlock && st.currentTask.Some? && st.inTaskProperties && !IsTaskTitle(line, trimmed)
    requires MatchProperty(line).None? && st.currentTask.value.steps.None? && !IsFenceOpen(line) && trimmed != ""
    ensures ExamineTaskLine(st, line, trimmed, ids)
            == Outcome(st.(currentColumn := FinalizeCurrentTask(st.currentTask, st.currentColumn),
                           currentTask := None,
                           inTaskProperties := false,
                           inTaskDescription := false), true)
  {
  }

  /**
   * In a task's property lines, a line the property pattern matches sets that
   * property of the open task and changes nothing else.
   */
  lemma ExaminePropertyLine(st: ParserState, line: string, ids: nat -> string)
    requires !st.inCodeBlock && st.currentTask.Some? && st.inTaskProperties
    requires MatchProperty(line).Some?
    ensures Examine(st, line, ids)
            == Outcome(st.(currentTask := Some(SetProperty(st.currentTask.value, MatchProperty(line).value.0,
                                                           MatchProperty(line).value.1))), false)
  {
    PropertyBulletShape(line);
    IndentedBulletLine(st, line, ids);
    TaskLineProperty(st, line, Trim(line), ids);
  }

  /**
   * In a task's property lines, once `steps:` has made the list, a step line
   * appends its step at the end and changes nothing else.
   */
  lemma ExamineStepLine(st: ParserState, line: string, ids: nat -> string)
    requires !st.inCodeBlock && st.currentTask.Some? && st.inTaskProperties
    requires st.currentTask.value.steps.Some? && MatchStep(line).Some?
    ensures Examine(st, line, ids)
            == Outcome(st.(currentTask := Some(st.currentTask.value.(
                 steps := Some(st.currentTask.value.steps.value + [MatchStep(line).value])))), false)
  {
    StepLineNoProperty(line);
    StepBulletShape(line);
    IndentedBulletLine(st, line, ids);
    TaskLineStep(st, line, Trim(line), ids);
  }

  /**
   * Before a `steps:` line has made the list, a step line is no step: it ends the
   * task's properties, closes the task into its column and is examined again.
   */
  lemma ExamineStepWithoutList(st: ParserState, line: string, ids: nat -> string)
    requires !st.inCodeBlock && st.currentTask.Some? && st.inTaskProperties
    requires st.currentTask.value.steps.None? && MatchStep(line).Some?
    ensures Examine(st, line, ids)
            == Outcome(st.(currentColumn := FinalizeCurrentTask(st.currentTask, st.currentColumn),
                           currentTask := None,
                           inTaskProperties := false,
                           inTaskDescription := false), true)
  {
    StepLineNoProperty(line);
    StepBulletShape(line);
    IndentedBulletLine(st, line, ids);
    TaskLineStepWithoutList(st, line, Trim(line), ids);
  }

  lemma FeedStepLine(st: ParserState, line: string, ids: nat -> string)
    requires !st.inCodeBlock && st.currentTask.Some? && st.inTaskProperties
    requires st.currentTask.value.steps.Some? && MatchStep(line).Some?
    ensures Feed(st, line, ids)
            == st.(currentTask := Some(st.currentTask.value.(
                 steps := Some(st.currentTask.value.steps.value + [MatchStep(line).value]))))
  {
    ExamineStepLine(st, line, ids);
  }

  lemma FeedPropertyLine(st: ParserState, line: string, ids: nat -> string)
    requires !st.inCodeBlock && st.currentTask.Some? && st.inTaskProperties && MatchProperty(line).Some?
    ensures Feed(st, line, ids)
            == st.(currentTask := Some(SetProperty(st.currentTask.value, MatchProperty(line).value.0,
                                                   MatchProperty(line).value.1)))
  {
    ExaminePropertyLine(st, line, ids);
  }

  lemma RunStepFirst(st: ParserState, lines: seq<string>, ids: nat -> string)
    requires !st.inCodeBlock && st.currentTask.Some? && st.inTaskProperties && st.currentTask.value.steps.Some?
    requires lines != [] && MatchStep(lines[0]).Some?
    ensures Run(st, lines, ids)
            == Run(st.(currentTask := Some(st.currentTask.value.(
                     steps := Some(st.currentTask.value.steps.value + [MatchStep(lines[0]).value])))), lines[1..], ids)
  {
    FeedStepLine(st, lines[0], ids);
  }

  lemma RunAfterLine(st: ParserState, line: string, rest: seq<string>, next: ParserState, ids: nat -> string)
    requires Feed(st, line, ids) == next
    ensures Run(st, [line] + rest, ids) == Run(next, rest, ids)
  {
    assert ([line] + rest)[1..] == rest;
  }

  lemma StepsListMade(t: Task)
    ensures SetProperty(t, Dialect.StepsKey, "") == t.(steps := Some([]))
  {
  }

  /** Lines the step pattern matches, read in a task's properties, append their steps in order. */
  lemma {:induction false} RunMatchedSteps(st: ParserState, lines: seq<string>, steps: seq<Step>, ids: nat -> string)
    requires !st.inCodeBlock && st.currentTask.Some? && st.inTaskProperties && st.currentTask.value.steps.Some?
    requires |lines| == |steps| && forall i {:trigger MatchStep(lines[i])} :: 0 <= i < |lines| ==> MatchStep(lines[i]) == Some(steps[i])
    ensures Run(st, lines, ids)
            == st.(currentTask := Some(st.currentTask.value.(
                 steps := Some(st.currentTask.value.steps.value + steps))))
    decreases |lines|
  {
    if lines == [] {
      assert st.currentTask.value.steps.value + steps == st.currentTask.value.steps.value;
    } else {
      var t := st.currentTask.value;
      var next := st.(currentTask := Some(t.(steps := Some(t.steps.value + [steps[0]]))));
      RunMatchedSteps(next, lines[1..], steps[1..], ids);
      RunMatchedStep(st, lines, steps, ids);
    }
  }

  /** The parser state with one more step on the open task. */
  function StepAppended(st: ParserState, step: Step): (r: ParserState)
    requires st.currentTask.Some? && st.currentTask.value.steps.Some?
    ensures r.currentTask.Some? && r.currentTask.value.steps.Some?
  {
    st.(currentTask := Some(st.currentTask.value.(steps := Some(st.currentTask.value.steps.value + [step]))))
  }

  /** The parser state with more steps on the open task. */
  function StepsAppended(st: ParserState, more: seq<Step>): ParserState
    requires st.currentTask.Some? && st.currentTask.value.steps.Some?
  {
    st.(currentTask := Some(st.currentTask.value.(steps := Some(st.currentTask.value.steps.value + more))))
  }

  /** The inductive step of `RunMatchedSteps`: the first line's step, then the rest's. */
  lemma RunMatchedStep(st: ParserState, lines: seq<string>, steps: seq<Step>, ids: nat -> string)
    requires !st.inCodeBlock && st.currentTask.Some? && st.inTaskProperties && st.currentTask.value.steps.Some?
    requires lines != [] && steps != [] && MatchStep(lines[0]) == Some(steps[0])
    requires Run(StepAppended(st, steps[0]), lines[1..], ids) == StepsAppended(StepAppended(st, steps[0]), steps[1..])
    ensures Run(st, lines, ids)
            == st.(currentTask := Some(st.currentTask.value.(
                 steps := Some(st.currentTask.value.steps.value + steps))))
  {
    RunStepFirst(st, lines, ids);
    HeadThenTail(st.currentTask.value.steps.value, steps);
  }

  lemma HeadThenTail<T>(a: seq<T>, s: seq<T>)
    requires s != []
    ensures a + [s[0]] + s[1..] == a + s
  {
    assert s == [s[0]] + s[1..];
  }

  /** Generated step lines, read in a task's properties, append their steps in document order. */
  lemma RunStepLines(st: ParserState, steps: seq<Step>, ids: nat -> string)
    requires !st.inCodeBlock && st.currentTask.Some? && st.inTaskProperties && st.currentTask.value.steps.Some?
    requires forall i :: 0 <= i < |steps| ==> Clean(steps[i].text)
    ensures Run(st, MarkdownGenerator.StepLines(steps), ids)
            == st.(currentTask := Some(st.currentTask.value.(
                 steps := Some(st.currentTask.value.steps.value + steps))))
  {
    var lines := MarkdownGenerator.StepLines(steps);
    forall i | 0 <= i < |lines| ensures MatchStep(lines[i]) == Some(steps[i]) {
      StepLineRead(steps[i]);
    }
    RunMatchedSteps(st, lines, steps, ids);
  }

  /** A `steps:` property line makes the open task's step list empty and changes nothing else. */
  lemma RunStepsHeader(st: ParserState, header: string, lines: seq<string>, ids: nat -> string)
    requires !st.inCodeBlock && st.currentTask.Some? && st.inTaskProperties
    requires MatchProperty(header) == Some((Dialect.StepsKey, ""))
    ensures Run(st, [header] + lines, ids) == Run(st.(currentTask := Some(st.currentTask.value.(steps := Some([])))), lines, ids)
  {
    var listed := st.(currentTask := Some(st.currentTask.value.(steps := Some([]))));
    assert Feed(st, header, ids) == listed by {
      FeedPropertyLine(st, header, ids);
      StepsListMade(st.currentTask.value);
    }
    RunAfterLine(st, header, lines, listed, ids);
  }

  /**
   * A generated `steps:` line followed by generated step lines leaves the open
   * task with exactly those steps, in order, and changes nothing else.
   */
  lemma RunStepsBlock(st: ParserState, steps: seq<Step>, ids: nat -> string)
    requires !st.inCodeBlock && st.currentTask.Some? && st.inTaskProperties
    requires forall i :: 0 <= i < |steps| ==> Clean(steps[i].text)
    ensures Run(st, [MarkdownGenerator.KeyLine(Dialect.StepsKey)] + MarkdownGenerator.StepLines(steps), ids)
            == st.(currentTask := Some(st.currentTask.value.(steps := Some(steps))))
  {
    var listed := st.(currentTask := Some(st.currentTask.value.(steps := Some([]))));
    var header := MarkdownGenerator.KeyLine(Dialect.StepsKey);
    var lines := MarkdownGenerator.StepLines(steps);
    assert Run(st, [header] + lines, ids) == Run(listed, lines, ids) by {
      BareKeyLineRead(Dialect.StepsKey);
      RunStepsHeader(st, header, lines, ids);
    }
    assert Run(listed, lines, ids) == st.(currentTask := Some(st.currentTask.value.(steps := Some(steps)))) by {
      RunStepLines(listed, steps, ids);
      assert [] + steps == steps;
    }
  }

  // ---------------------------------------------------------------------------
  // The board title
  // ---------------------------------------------------------------------------

  /** A trimmed line starting with `# ` has a non-empty title after it. */
  lemma HeadingTitleNotEmpty(trimmed: string)
    requires IsTrimmed(trimmed) && StartsWith(trimmed, "# ")
    ensures Trim(Substring(trimmed, 2)) != ""
  {
    assert trimmed[1] == ' ';
    var rest := trimmed[2..];
    assert rest[|rest| - 1] == trimmed[|trimmed| - 1];
    TrimNotEmpty(rest, |rest| - 1);
  }

  /** Once the board has a title, no line changes it. */
  lemma ExamineKeepsTitle(st: ParserState, line: string, ids: nat -> string)
    requires st.board.title != ""
    ensures Examine(st, line, ids).state.board.title == st.board.title
  {
    var pushed := PushColumn(st.board, FinalizeCurrentTask(st.currentTask, st.currentColumn));
    assert pushed.title == st.board.title;
    ExamineBoard(st, line, ids);
  }

  /** A line leaves the board as it is, pushes the open column onto it, or gives an untitled board its title. */
  lemma ExamineBoard(st: ParserState, line: string, ids: nat -> string)
    ensures var b := Examine(st, line, ids).state.board;
      || b == st.board
      || b == PushColumn(st.board, FinalizeCurrentTask(st.currentTask, st.currentColumn))
      || (&& st.board.title == "" && !st.inCodeBlock && StartsWith(Trim(line), "# ")
          && b == st.board.(title := Trim(Substring(Trim(line), 2))))
  {
  }

  /** Only a `# ` line outside a code block gives the board a title. */
  lemma ExamineLeavesNoTitle(st: ParserState, line: string, ids: nat -> string)
    requires st.board.title == "" && (st.inCodeBlock || !StartsWith(Trim(line), "# "))
    ensures Examine(st, line, ids).state.board.title == ""
  {
    var pushed := PushColumn(st.board, FinalizeCurrentTask(st.currentTask, st.currentColumn));
    assert pushed.title == st.board.title;
    ExamineBoard(st, line, ids);
  }

  /** The first `# ` line outside a code block sets the title, to a non-empty text. */
  lemma ExamineSetsTitle(st: ParserState, line: string, ids: nat -> string)
    requires st.board.title == "" && !st.inCodeBlock && StartsWith(Trim(line), "# ")
    ensures Examine(st, line, ids).state.board.title == Trim(Substring(Trim(line), 2)) != ""
  {
    assert !StartsWith(Trim(line), "```") by {
      DiffersAt(Trim(line), "```", 0);
    }
    ExamineTitleBranch(st, line, ids);
    HeadingTitleNotEmpty(Trim(line));
  }

  lemma ExamineTitleBranch(st: ParserState, line: string, ids: nat -> string)
    requires st.board.title == "" && !st.inCodeBlock && StartsWith(Trim(line), "# ") && !StartsWith(Trim(line), "```")
    ensures Examine(st, line, ids).state.board.title == Trim(Substring(Trim(line), 2))
  {
  }

  lemma FeedTitle(st: ParserState, line: string, ids: nat -> string)
    requires st.board.title != ""
    ensures Feed(st, line, ids).board.title == st.board.title
  {
    ExamineKeepsTitle(st, line, ids);
    ExamineKeepsTitle(Examine(st, line, ids).state, line, ids);
  }

  /** Once the board has a title, the rest of the scan keeps it. */
  lemma {:induction false} TitleKept(st: ParserState, lines: seq<string>, ids: nat -> string)
    requires st.board.title != ""
    ensures Run(st, lines, ids).board.title == st.board.title
    decreases |lines|
  {
    if lines != [] {
      FeedTitle(st, lines[0], ids);
      TitleKept(Feed(st, lines[0], ids), lines[1..], ids);
    }
  }

  // ---------------------------------------------------------------------------
  // Column headings
  // ---------------------------------------------------------------------------

  lemma HeadingShape(body: string)
    requires body != []
    ensures StartsWith("## " + body, "## ") && Substring("## " + body, 3) == body
    ensures ("## " + body)[0] == '#' && ("## " + body)[|"## " + body| - 1] == body[|body| - 1]
  {
    assert ("## " + body)[..3] == "## ";
  }

  /** `## <body>` for a trimmed body: a heading line that is its own trim, with `body` after the marker. */
  lemma HeadingOfBody(body: string)
    requires body != [] && IsTrimmed(body)
    ensures Trim("## " + body) == "## " + body && StartsWith("## " + body, "## ")
    ensures Substring("## " + body, 3) == body
  {
    HeadingShape(body);
    TrimOfTrimmed("## " + body);
  }

  /** The heading's title is what follows `## `, less a trailing `[Archived]` marker. */
  lemma ParseHeadingBody(line: string, body: string)
    requires Substring(line, 3) == body && IsTrimmed(body)
    ensures ParseColumnHeading(line) ==
      if EndsWith(body, "[Archived]") then (Trim(StripArchivedMarker(body)), true) else (body, false)
  {
    TrimOfTrimmed(body);
  }

  lemma MarkerShape(title: string)
    ensures EndsWith(title + " [Archived]", "[Archived]")
    ensures (title + " [Archived]")[..|title + " [Archived]"| - |"[Archived]"|] == title + " "
    ensures |title + " [Archived]"| > 0 && (title + " [Archived]")[|title + " [Archived]"| - 1] == ']'
  {
    var s := title + " [Archived]";
    assert s[|s| - 10..] == "[Archived]";
    assert s[..|s| - 10] == title + " ";
  }

  /** The marker comes off a trimmed title with the space before it. */
  lemma MarkedTitle(title: string)
    requires title != [] && IsTrimmed(title)
    ensures IsTrimmed(title + " [Archived]") && EndsWith(title + " [Archived]", "[Archived]")
    ensures Trim(StripArchivedMarker(title + " [Archived]")) == title
  {
    MarkerShape(title);
    assert (title + " [Archived]")[0] == title[0];
    TrimEndBeforeWhitespace(title, " ");
    TrimOfTrimmed(title);
  }

  /**
   * A generated column heading reads back as the same column title and archived
   * flag, for a trimmed, non-empty title that does not itself end in `[Archived]`.
   */
  lemma ColumnHeadingRoundTrip(c: Column)
    requires c.title != "" && IsTrimmed(c.title) && !EndsWith(c.title, "[Archived]")
    ensures Trim(MarkdownGenerator.ColumnHeadingLine(c)) == MarkdownGenerator.ColumnHeadingLine(c)
    ensures StartsWith(MarkdownGenerator.ColumnHeadingLine(c), "## ")
    ensures ParseColumnHeading(MarkdownGenerator.ColumnHeadingLine(c)) == (c.title, c.archived)
  {
    if c.archived {
      assert MarkdownGenerator.ColumnHeadingLine(c) == "## " + (c.title + " [Archived]");
      MarkedTitle(c.title);
      HeadingOfBody(c.title + " [Archived]");
      ParseHeadingBody("## " + (c.title + " [Archived]"), c.title + " [Archived]");
    } else {
      assert MarkdownGenerator.ColumnHeadingLine(c) == "## " + c.title;
      HeadingOfBody(c.title);
      ParseHeadingBody("## " + c.title, c.title);
    }
  }

  /** The parser meets a generated heading outside a code block: it opens a new column. */
  lemma ExamineColumnHeading(st: ParserState, line: string, ids: nat -> string)
    requires !st.inCodeBlock && StartsWith(Trim(line), "## ")
    ensures var o := Examine(st, line, ids);
      && !o.rewind
      && o.state.board == PushColumn(st.board, FinalizeCurrentTask(st.currentTask, st.currentColumn))
      && o.state.currentColumn == Some(Column(GeneratedId(ids, st.idsUsed), ParseColumnHeading(Trim(line)).0, [],
                                              ParseColumnHeading(Trim(line)).1))
      && o.state.currentTask.None? && !o.state.inTaskProperties && !o.state.inTaskDescription
      && o.state.idsUsed == st.idsUsed + 1 && o.state.inCodeBlock == st.inCodeBlock
  {
    HeadingNotFenceOrTitle(Trim(line));
    ExamineHeadingBranch(st, line, ids);
  }

  /** A line that starts like `## ` is no fence and no board title. */
  lemma HeadingNotFenceOrTitle(trimmed: string)
    requires StartsWith(trimmed, "## ")
    ensures !StartsWith(trimmed, "```") && !StartsWith(trimmed, "# ")
  {
    DiffersAt(trimmed, "```", 0);
    DiffersAt(trimmed, "# ", 1);
  }

  lemma ExamineHeadingBranch(st: ParserState, line: string, ids: nat -> string)
    requires !st.inCodeBlock && StartsWith(Trim(line), "## ")
    requires !StartsWith(Trim(line), "```") && !StartsWith(Trim(line), "# ")
    ensures Examine(st, line, ids) == ColumnOpened(st, Trim(line), ids)
  {
  }

  // ---------------------------------------------------------------------------
  // Task titles
  // ---------------------------------------------------------------------------

  /** A trimmed line that starts like `### ` is no fence, board title or column heading. */
  lemma SubheadingNotHeading(trimmed: string)
    requires StartsWith(trimmed, "### ")
    ensures !StartsWith(trimmed, "```") && !StartsWith(trimmed, "# ") && !StartsWith(trimmed, "## ")
  {
    DiffersAt(trimmed, "```", 0);
    DiffersAt(trimmed, "# ", 1);
    DiffersAt(trimmed, "## ", 2);
  }

  /** A line that starts with `- ` trims to a line starting with the dash. */
  lemma DashLineNotHeading(line: string)
    requires StartsWith(line, "- ")
    ensures !StartsWith(Trim(line), "```") && !StartsWith(Trim(line), "# ") && !StartsWith(Trim(line), "## ")
  {
    assert line[..1] == "-";
    TrimKeepsPrefix(line, "-");
    DiffersAt(Trim(line), "```", 0);
    DiffersAt(Trim(line), "# ", 0);
    DiffersAt(Trim(line), "## ", 0);
  }

  /** A task title line is neither a fence, nor a board title, nor a column heading. */
  lemma TaskTitleNotHeading(line: string)
    requires IsTaskTitle(line, Trim(line))
    ensures !StartsWith(Trim(line), "```") && !StartsWith(Trim(line), "# ") && !StartsWith(Trim(line), "## ")
  {
    if StartsWith(Trim(line), "### ") {
      SubheadingNotHeading(Trim(line));
    } else {
      DashLineNotHeading(line);
    }
  }

  /**
   * A task title line outside a code block, while a column is open, closes the
   * open task into that column and opens a new task with a fresh id, the title
   * text and an empty description.
   */
  lemma ExamineTaskTitle(st: ParserState, line: string, ids: nat -> string)
    requires !st.inCodeBlock && IsTaskTitle(line, Trim(line)) && st.currentColumn.Some?
    ensures Examine(st, line, ids).state == st.(
      currentColumn := FinalizeCurrentTask(st.currentTask, st.currentColumn),
      currentTask := Some(NewTask(GeneratedId(ids, st.idsUsed), TaskTitleText(Trim(line)))),
      inTaskProperties := true,
      inTaskDescription := false,
      idsUsed := st.idsUsed + 1)
  {
    TaskTitleNotHeading(line);
  }

  /** Without an open column a task title line opens no task and changes nothing. */
  lemma ExamineTaskTitleWithoutColumn(st: ParserState, line: string, ids: nat -> string)
    requires !st.inCodeBlock && IsTaskTitle(line, Trim(line)) && st.currentColumn.None?
    ensures Examine(st, line, ids) == Outcome(st, false)
  {
    TaskTitleNotHeading(line);
  }

  /** The scan's invariant: an open task always has an open column to go into. */
  predicate TaskHasColumn(st: ParserState) {
    st.currentTask.Some? ==> st.currentColumn.Some?
  }

  /** Every line keeps the invariant: a task is only ever opened while a column is open. */
  lemma ExamineKeepsTaskHasColumn(st: ParserState, line: string, ids: nat -> string)
    requires TaskHasColumn(st)
    ensures TaskHasColumn(Examine(st, line, ids).state)
  {
    var trimmed := Trim(line);
    if StartsWith(trimmed, "```") && st.inTaskDescription && (trimmed == "```md" || trimmed == "```") {
    } else if st.inCodeBlock && st.inTaskDescription && st.currentTask.Some? {
    } else if !st.inCodeBlock && StartsWith(trimmed, "# ") && st.board.title == "" {
    } else if !st.inCodeBlock && StartsWith(trimmed, "## ") {
    } else {
      TaskLineKeepsTaskHasColumn(st, line, trimmed, ids);
    }
  }

  lemma TaskLineKeepsTaskHasColumn(st: ParserState, line: string, trimmed: string, ids: nat -> string)
    requires TaskHasColumn(st)
    ensures TaskHasColumn(ExamineTaskLine(st, line, trimmed, ids).state)
  {
  }

  lemma {:induction false} RunKeepsTaskHasColumn(st: ParserState, lines: seq<string>, ids: nat -> string)
    requires TaskHasColumn(st)
    ensures TaskHasColumn(Run(st, lines, ids))
    decreases |lines|
  {
    if lines != [] {
      ExamineKeepsTaskHasColumn(st, lines[0], ids);
      ExamineKeepsTaskHasColumn(Examine(st, lines[0], ids).state, lines[0], ids);
      RunKeepsTaskHasColumn(Feed(st, lines[0], ids), lines[1..], ids);
    }
  }

  /** A bullet `- <name>:<rest>` trims to a line with the same dash, name and colon. */
  lemma BulletTrim(name: string, rest: string)
    ensures var trimmed := Trim("- " + (name + ":" + rest));
      && |trimmed| >= |name| + 3 && LeadingWhitespace(trimmed) == 0 && StartsWith(trimmed, "- ")
      && trimmed[2..] == name + ":" + trimmed[|name| + 3..]
  {
    var line := "- " + (name + ":" + rest);
    var p := "- " + name + ":";
    assert StartsWith(line, p) by {
      assert line[..|p|] == p;
    }
    assert StartsWith(Trim(line), p) by {
      assert p[0] == '-' && p[|p| - 1] == ':';
      TrimKeepsPrefix(line, p);
    }
    PrefixedBullet(name, Trim(line));
  }

  /** A line that starts with `- <name>:` has no leading white space and its name follows the dash. */
  lemma PrefixedBullet(name: string, trimmed: string)
    requires StartsWith(trimmed, "- " + name + ":")
    ensures LeadingWhitespace(trimmed) == 0 && StartsWith(trimmed, "- ")
    ensures trimmed[2..] == name + ":" + trimmed[|name| + 3..]
  {
    var p := "- " + name + ":";
    assert trimmed[..|p|] == p;
    assert trimmed[0] == '-';
    assert trimmed[..2] == "- ";
    assert p == "- " + (name + ":");
    assert p[2..] == name + ":";
    SliceOfSlice(trimmed, 2, |p|);
  }

  lemma SliceOfSlice<T>(s: seq<T>, a: nat, b: nat)
    requires a <= b <= |s|
    ensures s[a..][..b - a] == s[a..b] == s[..b][a..]
  {
  }

  /** A bullet whose text starts with a reserved key and its colon is never a task title. */
  lemma ReservedBulletNotTitle(k: Dialect.PropertyKey, rest: string)
    ensures !IsTaskTitle("- " + (Dialect.KeyName(k) + ":" + rest), Trim("- " + (Dialect.KeyName(k) + ":" + rest)))
  {
    var name := Dialect.KeyName(k);
    var line := "- " + (name + ":" + rest);
    var trimmed := Trim(line);
    assert StartsWith(line, "- ") by {
      DashShape(name + ":" + rest);
    }
    assert ReservedBullet(trimmed) by {
      BulletTrim(name, rest);
      ReservedKeyBullet(k, trimmed);
    }
    ReservedBulletIsNoTitle(line, trimmed);
  }

  lemma ReservedKeyBullet(k: Dialect.PropertyKey, trimmed: string)
    requires |trimmed| >= |Dialect.KeyName(k)| + 3 && LeadingWhitespace(trimmed) == 0 && StartsWith(trimmed, "- ")
    requires trimmed[2..] == Dialect.KeyName(k) + ":" + trimmed[|Dialect.KeyName(k)| + 3..]
    ensures ReservedBullet(trimmed)
  {
    assert KeyAt(trimmed[2..]).Some? by {
      KeyAtKeyText(k, trimmed[|Dialect.KeyName(k)| + 3..]);
    }
    BulletWithKey(trimmed);
  }

  lemma BulletWithKey(trimmed: string)
    requires |trimmed| >= 2 && LeadingWhitespace(trimmed) == 0 && StartsWith(trimmed, "- ")
    requires KeyAt(trimmed[2..]).Some?
    ensures ReservedBullet(trimmed)
  {
    assert trimmed[0..] == trimmed;
  }

  lemma ReservedBulletIsNoTitle(line: string, trimmed: string)
    requires StartsWith(line, "- ") && ReservedBullet(trimmed)
    ensures !IsTaskTitle(line, trimmed)
  {
  }

  lemma PrefixShape(prefix: string, title: string)
    requires title != []
    ensures StartsWith(prefix + title, prefix) && Substring(prefix + title, |prefix|) == title
    ensures prefix != [] ==> (prefix + title)[0] == prefix[0]
    ensures (prefix + title)[|prefix + title| - 1] == title[|title| - 1]
  {
    assert (prefix + title)[..|prefix|] == prefix;
  }

  lemma SubheadingIsTitle(line: string)
    requires StartsWith(line, "### ")
    ensures IsTaskTitle(line, line)
  {
    DiffersAt(line, "- ", 0);
  }

  lemma SubheadingTitleText(line: string, title: string)
    requires StartsWith(line, "### ") && Substring(line, 4) == title && IsTrimmed(title)
    ensures TaskTitleText(line) == title
  {
    TrimOfTrimmed(title);
  }

  /** `### <title>` is a task title line whose title is `title`. */
  lemma SubheadingTaskTitle(title: string)
    requires title != "" && IsTrimmed(title)
    ensures Trim("### " + title) == "### " + title
    ensures IsTaskTitle("### " + title, "### " + title)
    ensures TaskTitleText("### " + title) == title
  {
    PrefixShape("### ", title);
    TrimOfTrimmed("### " + title);
    SubheadingIsTitle("### " + title);
    SubheadingTitleText("### " + title, title);
  }

  lemma BulletIsTitle(line: string)
    requires StartsWith(line, "- ") && KeyAt(line[2..]).None?
    ensures IsTaskTitle(line, line)
  {
    DiffersAt(line, "  ", 0);
    assert LeadingWhitespace(line) == 0;
  }

  lemma BulletTitleText(line: string, title: string)
    requires StartsWith(line, "- ") && Substring(line, 2) == title && IsTrimmed(title)
    requires !StartsWith(title, "[ ] ") && !StartsWith(title, "[x] ")
    ensures TaskTitleText(line) == title
  {
    DiffersAt(line, "### ", 0);
    TrimOfTrimmed(title);
  }

  /**
   * `- <title>` is a task title line whose title is `title`, unless the title
   * starts with a reserved key and its colon, or with a check box.
   */
  lemma BulletTaskTitle(title: string)
    requires title != "" && IsTrimmed(title)
    requires KeyAt(title).None? && !StartsWith(title, "[ ] ") && !StartsWith(title, "[x] ")
    ensures Trim("- " + title) == "- " + title
    ensures IsTaskTitle("- " + title, "- " + title)
    ensures TaskTitleText("- " + title) == title
  {
    PrefixShape("- ", title);
    TrimOfTrimmed("- " + title);
    BulletIsTitle("- " + title);
    BulletTitleText("- " + title, title);
  }

  lemma CheckboxTitleText(line: string, boxed: string, title: string)
    requires StartsWith(line, "- ") && Substring(line, 2) == boxed && IsTrimmed(boxed)
    requires StartsWith(boxed, "[ ] ") || StartsWith(boxed, "[x] ")
    requires Substring(boxed, 4) == title && IsTrimmed(title)
    ensures TaskTitleText(line) == title
  {
    DiffersAt(line, "### ", 0);
    TrimOfTrimmed(boxed);
    TrimOfTrimmed(title);
  }

  lemma BoxShape(box: string, title: string)
    requires box == "[ ] " || box == "[x] "
    ensures box + title == "[" + (box[1..] + title)
    ensures StartsWith(box + title, box) && box[0] == '[' && box[|box| - 1] == ' '
  {
    assert (box + title)[..4] == box;
  }

  /** `- [ ] <title>` and `- [x] <title>` are task title lines whose title is `title`, without the box. */
  lemma CheckboxBulletTaskTitle(box: string, title: string)
    requires box == "[ ] " || box == "[x] "
    requires title != "" && IsTrimmed(title)
    ensures IsTaskTitle("- " + (box + title), "- " + (box + title))
    ensures TaskTitleText("- " + (box + title)) == title
  {
    var boxed := box + title;
    var line := "- " + boxed;
    assert StartsWith(line, "- ") && Substring(line, 2) == boxed && line[2..] == boxed by {
      PrefixShape("- ", boxed);
    }
    assert StartsWith(boxed, box) && Substring(boxed, 4) == title && IsTrimmed(boxed) by {
      PrefixShape(box, title);
      BoxShape(box, title);
    }
    assert KeyAt(boxed) == None by {
      BoxShape(box, title);
      KeyAtBracket(box[1..] + title);
    }
    BulletIsTitle(line);
    CheckboxTitleText(line, boxed, title);
  }

  // ---------------------------------------------------------------------------
  // Property values
  // ---------------------------------------------------------------------------

  /** A priority is read only from its own name. */
  lemma PriorityNames(value: string, p: Priority)
    ensures ParsePriority(value) == Some(p) <==> value == PriorityName(p)
  {
  }

  /** A workload is read only from its own name. */
  lemma WorkloadNames(value: string, w: Workload)
    ensures ParseWorkload(value) == Some(w) <==> value == WorkloadName(w)
  {
  }

  /** The task with the field that property `k` sets put back to its default. */
  function ClearField(t: Task, k: Dialect.PropertyKey): Task {
    match k
    case IdKey => t.(id := "")
    case DueKey => t.(dueDate := None)
    case StartKey => t.(startDate := None)
    case TagsKey => t.(tags := None)
    case PriorityKey => t.(priority := None)
    case WorkloadKey => t.(workload := None)
    case UpdatedKey => t.(updated := None)
    case CompletedKey => t.(completed := None)
    case MilestoneKey => t.(milestone := None)
    case DetailKey => t.(detailPath := None)
    case DefaultExpandedKey => t.(defaultExpanded := None)
    case StepsKey => t.(steps := None)
  }

  /** A property line changes at most the one field its key names. */
  lemma SetPropertyFrame(t: Task, k: Dialect.PropertyKey, value: string)
    ensures ClearField(SetProperty(t, k, value), k) == ClearField(t, k)
  {
  }

  /**
   * The values a property line leaves without effect: an empty `id` or `detail`,
   * and a `priority` or `workload` outside its names.
   */
  lemma SetPropertyIgnored(t: Task, k: Dialect.PropertyKey, value: string)
    requires || ((k == Dialect.IdKey || k == Dialect.DetailKey) && value == "")
             || (k == Dialect.PriorityKey && forall p :: value != PriorityName(p))
             || (k == Dialect.WorkloadKey && forall w :: value != WorkloadName(w))
    ensures SetProperty(t, k, value) == t
  {
    if k == Dialect.PriorityKey {
      assert value != PriorityName(Low) && value != PriorityName(Medium) && value != PriorityName(High);
    } else if k == Dialect.WorkloadKey {
      assert value != WorkloadName(Easy) && value != WorkloadName(Normal);
      assert value != WorkloadName(Hard) && value != WorkloadName(Extreme);
    }
  }

  /** `[<inner>]`: the bracket contents are `inner`. */
  lemma BracketOf(inner: string)
    ensures BracketContents("[" + inner + "]") == Some(inner)
  {
    var v := "[" + inner + "]";
    assert v[0] == '[' && v[|v| - 1] == ']';
    assert v[1..|v| - 1] == inner;
  }

  /** The tags after the first, each with the space `join(', ')` puts before it. */
  function Spaced(tags: seq<string>): seq<string>
  {
    if tags == [] then [] else [" " + tags[0]] + Spaced(tags[1..])
  }

  /** A tag list in the generator's `[a, b, c]` form. */
  function TagsValue(tags: seq<string>): string {
    "[" + Join(tags, ", ") + "]"
  }

  /** `(prefix + join(tags, ', ')).split(',')`: the first tag with the prefix, then the others spaced. */
  lemma {:induction false} SplitCommaJoin(prefix: string, tags: seq<string>)
    requires |tags| >= 1 && ',' !in prefix
    requires forall i :: 0 <= i < |tags| ==> ',' !in tags[i]
    ensures Split(prefix + Join(tags, ", "), ',') == [prefix + tags[0]] + Spaced(tags[1..])
    decreases |tags|
  {
    if |tags| == 1 {
      SplitNoSeparator(prefix + tags[0], ',');
    } else {
      var rest := Join(tags[1..], ", ");
      assert prefix + Join(tags, ", ") == (prefix + tags[0]) + [','] + (" " + rest);
      SplitAfterPart(prefix + tags[0], ',', " " + rest);
      SplitCommaJoin(" ", tags[1..]);
      assert Spaced(tags[1..]) == [" " + tags[1]] + Spaced(tags[2..]);
      assert tags[1..][1..] == tags[2..];
    }
  }

  lemma {:induction false} TrimSpaced(tags: seq<string>)
    requires forall i :: 0 <= i < |tags| ==> IsTrimmed(tags[i])
    ensures TrimEach(Spaced(tags)) == tags
  {
    if tags != [] {
      TrimmedTail(tags);
      TrimSpaced(tags[1..]);
      TrimOfSpaced(tags[0]);
      TrimEachCons(" " + tags[0], Spaced(tags[1..]));
      ConsTail(tags);
    }
  }

  lemma TrimmedTail(tags: seq<string>)
    requires tags != [] && forall i :: 0 <= i < |tags| ==> IsTrimmed(tags[i])
    ensures forall i :: 0 <= i < |tags[1..]| ==> IsTrimmed(tags[1..][i])
  {
  }

  lemma SplitTags(tags: seq<string>)
    requires |tags| >= 1
    requires forall i :: 0 <= i < |tags| ==> ',' !in tags[i]
    ensures Split(Join(tags, ", "), ',') == [tags[0]] + Spaced(tags[1..])
  {
    SplitCommaJoin("", tags);
    assert "" + Join(tags, ", ") == Join(tags, ", ");
    assert "" + tags[0] == tags[0];
  }

  lemma ConsTail(tags: seq<string>)
    requires |tags| >= 1
    ensures [tags[0]] + tags[1..] == tags
  {
  }

  lemma TrimEachCons(a: string, rest: seq<string>)
    ensures TrimEach([a] + rest) == [Trim(a)] + TrimEach(rest)
  {
    assert ([a] + rest)[1..] == rest;
  }

  /** Splitting `a, b, c` on commas and trimming each part gives the tags back. */
  lemma TagsSplit(tags: seq<string>)
    requires |tags| >= 1
    requires forall i :: 0 <= i < |tags| ==> IsTrimmed(tags[i]) && ',' !in tags[i]
    ensures TrimEach(Split(Join(tags, ", "), ',')) == tags
  {
    SplitTags(tags);
    TrimEachCons(tags[0], Spaced(tags[1..]));
    TrimSpaced(tags[1..]);
    TrimOfTrimmed(tags[0]);
    ConsTail(tags);
  }

  /**
   * A written tag list reads back as the same tags, when every tag is trimmed and
   * holds no comma.
   */
  lemma TagsReadBack(t: Task, tags: seq<string>)
    requires |tags| >= 1
    requires forall i :: 0 <= i < |tags| ==> IsTrimmed(tags[i]) && ',' !in tags[i]
    ensures SetProperty(t, Dialect.TagsKey, TagsValue(tags)) == t.(tags := Some(tags))
  {
    BracketOf(Join(tags, ", "));
    TagsSplit(tags);
  }

  // ---------------------------------------------------------------------------
  // Finalisation
  // ---------------------------------------------------------------------------

  /** A finalised description is trimmed, and a blank one has been deleted. */
  predicate Finalized(t: Task) {
    t.description.Some? ==> IsTrimmed(t.description.value) && (Truthy(t.description) ==> Trim(t.description.value) != "")
  }

  /**
   * Finalisation only touches the description: a description that trims to
   * something is replaced by its trimmed text, a non-empty one that trims to
   * nothing is deleted, and an empty or absent one is kept. It leaves the task
   * finalised, and doing it twice is doing it once.
   */
  lemma FinalizedTaskSpec(t: Task)
    ensures FinalizedTask(t).(description := t.description) == t
    ensures Finalized(FinalizedTask(t))
    ensures FinalizedTask(FinalizedTask(t)) == FinalizedTask(t)
    ensures FinalizedTask(t).description.Some? && FinalizedTask(t).description != t.description
            ==> FinalizedTask(t).description.value == Trim(t.description.value)
    ensures FinalizedTask(t).description.None? ==> t.description.None? || Trim(t.description.value) == ""
    ensures t.description.Some? && Trim(t.description.value) != ""
            ==> FinalizedTask(t).description == Some(Trim(t.description.value))
  {
    if Truthy(t.description) {
      var d := Trim(t.description.value);
      TrimOfTrimmed(d);
    } else if t.description.Some? {
      assert t.description.value == "";
    }
  }
}
