/**
 * What `generateTaskProperties` of src/markdownParser.ts promises about the
 * property lines it writes: one group of lines per key that has a value, the
 * groups in the dialect's canonical key order, and no steps when the task keeps
 * them in a detail file.
 */
module GeneratorProperties {
  import opened Wrappers
  import opened JsString
  import opened KanbanModel
  import opened Dialect
  import opened MarkdownGenerator

  /** The key at a position of the canonical order: the inverse of `CanonicalRank`. */
  function CanonicalKey(r: nat): (k: PropertyKey)
    requires r < 12
    ensures CanonicalRank(k) == r
  {
    CanonicalOrder[r]
  }

  /**
   * Whether a task has a value the generator writes for a key: a non-empty id, a
   * non-empty tag list, any priority, workload or `defaultExpanded`, a truthy
   * string for the dates and the detail path, and a non-empty step list unless
   * the steps live in a detail file.
   */
  predicate Present(t: Task, k: PropertyKey) {
    match k
    case IdKey => t.id != ""
    case TagsKey => t.tags.Some? && |t.tags.value| > 0
    case PriorityKey => t.priority.Some?
    case WorkloadKey => t.workload.Some?
    case UpdatedKey => Truthy(t.updated)
    case CompletedKey => Truthy(t.completed)
    case MilestoneKey => Truthy(t.milestone)
    case StartKey => Truthy(t.startDate)
    case DueKey => Truthy(t.dueDate)
    case DetailKey => Truthy(t.detailPath)
    case DefaultExpandedKey => t.defaultExpanded.Some?
    case StepsKey => !Truthy(t.detailPath) && t.steps.Some? && |t.steps.value| > 0
  }

  /**
   * A key gets lines exactly when the task has a value for it, and its first line
   * is `  - <key>:`, followed by ` <value>` for every key but `steps`.
   */
  lemma LinesForSpec(t: Task, k: PropertyKey)
    ensures LinesFor(t, k) != [] <==> Present(t, k)
    ensures LinesFor(t, k) != [] ==> StartsWith(LinesFor(t, k)[0], KeyLine(k))
    ensures LinesFor(t, k) != [] && k != StepsKey ==> StartsWith(LinesFor(t, k)[0], KeyLine(k) + " ")
    ensures LinesFor(t, k) != [] && k == StepsKey ==> LinesFor(t, k)[0] == KeyLine(k)
  {
    assert k != StepsKey ==> (PropertyValue(t, k).Some? <==> Present(t, k));
    if k != StepsKey && PropertyValue(t, k).Some? {
      PropertyLineStarts(k, PropertyValue(t, k).value);
    }
  }

  lemma PropertyLineStarts(k: PropertyKey, v: string)
    ensures StartsWith(PropertyLine(k, v), KeyLine(k) + " ")
    ensures StartsWith(PropertyLine(k, v), KeyLine(k))
  {
    var head := KeyLine(k) + " ";
    assert PropertyLine(k, v)[..|head|] == head;
    assert head[..|KeyLine(k)|] == KeyLine(k);
  }

  /** The keys before canonical position `r` that the task has a value for. */
  function KeysUpTo(t: Task, r: nat): seq<PropertyKey>
    requires r <= 12
  {
    if r == 0 then []
    else KeysUpTo(t, r - 1) + (if Present(t, CanonicalKey(r - 1)) then [CanonicalKey(r - 1)] else [])
  }

  /** The keys `generateTaskProperties` writes for a task, in the order it writes them. */
  function WrittenKeys(t: Task): seq<PropertyKey> {
    KeysUpTo(t, 12)
  }

  /** The lines of the given keys, one group after the other. */
  function GroupedLines(t: Task, keys: seq<PropertyKey>): seq<string> {
    if keys == [] then [] else GroupedLines(t, keys[..|keys| - 1]) + LinesFor(t, keys[|keys| - 1])
  }

  lemma {:induction false} KeysUpToSorted(t: Task, r: nat)
    requires r <= 12
    ensures forall i :: 0 <= i < |KeysUpTo(t, r)| ==> CanonicalRank(KeysUpTo(t, r)[i]) < r
    ensures forall i, j :: 0 <= i < j < |KeysUpTo(t, r)| ==>
      CanonicalRank(KeysUpTo(t, r)[i]) < CanonicalRank(KeysUpTo(t, r)[j])
  {
    if r > 0 {
      KeysUpToSorted(t, r - 1);
    }
  }

  lemma {:induction false} KeysUpToMembers(t: Task, r: nat, k: PropertyKey)
    requires r <= 12
    ensures k in KeysUpTo(t, r) <==> CanonicalRank(k) < r && Present(t, k)
  {
    if r > 0 {
      KeysUpToMembers(t, r - 1, k);
      var last := CanonicalKey(r - 1);
      if CanonicalRank(k) == r - 1 {
        CanonicalRankInjective(k, last);
      }
    }
  }

  lemma {:induction false} LinesUpToGrouped(t: Task, r: nat)
    requires r <= 12
    ensures LinesUpTo(t, r) == GroupedLines(t, KeysUpTo(t, r))
  {
    if r > 0 {
      LinesUpToGrouped(t, r - 1);
      var k := CanonicalKey(r - 1);
      var before := KeysUpTo(t, r - 1);
      LinesForSpec(t, k);
      if Present(t, k) {
        var keys := before + [k];
        assert keys[..|keys| - 1] == before;
      } else {
        assert KeysUpTo(t, r) == before + [];
        assert before + [] == before;
      }
    }
  }

  /**
   * `generateTaskProperties` writes one group of lines for each key the task has a
   * value for, and for no other key, in the canonical order id, tags, priority,
   * workload, updated, completed, milestone, start, due, detail, defaultExpanded,
   * steps.
   */
  lemma PropertyLinesCanonical(t: Task)
    ensures PropertyLines(t) == GroupedLines(t, WrittenKeys(t))
    ensures forall k :: k in WrittenKeys(t) <==> Present(t, k)
    ensures forall i, j :: 0 <= i < j < |WrittenKeys(t)| ==>
      CanonicalRank(WrittenKeys(t)[i]) < CanonicalRank(WrittenKeys(t)[j])
  {
    LinesUpToGrouped(t, 12);
    forall k ensures k in WrittenKeys(t) <==> Present(t, k) {
      KeysUpToMembers(t, 12, k);
    }
    KeysUpToSorted(t, 12);
  }

  /** A task with a detail file gets neither a `steps:` group nor a description block on the board. */
  lemma DetailedTaskWithheld(t: Task, format: TaskHeaderFormat)
    requires Truthy(t.detailPath)
    ensures StepsKey !in WrittenKeys(t)
    ensures TaskLines(t, format) == TaskHeaderLines(t, format) + PropertyLines(t) + [""]
  {
    PropertyLinesCanonical(t);
  }
}
