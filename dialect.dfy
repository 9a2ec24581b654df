/**
 * The property keys of the kanban dialect. The parser recognises a property line,
 * and refuses to read a bullet as a task title, by this one list of twelve keys
 * (src/markdownParser.ts:200 and :210); the generator writes the same keys in its
 * own fixed order (src/markdownParser.ts:334-446). Adding a key means changing both.
 */
module Dialect {

  datatype PropertyKey =
    | IdKey | DueKey | TagsKey | PriorityKey | WorkloadKey | StepsKey
    | DefaultExpandedKey | StartKey | MilestoneKey | DetailKey | UpdatedKey | CompletedKey

  /** The word written before the colon. */
  function KeyName(k: PropertyKey): string {
    match k
    case IdKey => "id"
    case DueKey => "due"
    case TagsKey => "tags"
    case PriorityKey => "priority"
    case WorkloadKey => "workload"
    case StepsKey => "steps"
    case DefaultExpandedKey => "defaultExpanded"
    case StartKey => "start"
    case MilestoneKey => "milestone"
    case DetailKey => "detail"
    case UpdatedKey => "updated"
    case CompletedKey => "completed"
  }

  /** The keys in the order of the parser's alternation `(id|due|tags|...|completed)`. */
  const ReservedKeys: seq<PropertyKey> := [
    IdKey, DueKey, TagsKey, PriorityKey, WorkloadKey, StepsKey,
    DefaultExpandedKey, StartKey, MilestoneKey, DetailKey, UpdatedKey, CompletedKey]

  /** The order in which `generateTaskProperties` writes the keys. */
  const CanonicalOrder: seq<PropertyKey> := [
    IdKey, TagsKey, PriorityKey, WorkloadKey, UpdatedKey, CompletedKey,
    MilestoneKey, StartKey, DueKey, DetailKey, DefaultExpandedKey, StepsKey]

  /** The position of a key in the generator's canonical order:
      id, tags, priority, workload, updated, completed, milestone, start, due, detail,
      defaultExpanded, steps. */
  function CanonicalRank(k: PropertyKey): (r: nat)
    ensures r < 12
  {
    match k
    case IdKey => 0
    case TagsKey => 1
    case PriorityKey => 2
    case WorkloadKey => 3
    case UpdatedKey => 4
    case CompletedKey => 5
    case MilestoneKey => 6
    case StartKey => 7
    case DueKey => 8
    case DetailKey => 9
    case DefaultExpandedKey => 10
    case StepsKey => 11
  }

  /** Distinct keys have distinct ranks, so the canonical order is a total order. */
  lemma CanonicalRankInjective(a: PropertyKey, b: PropertyKey)
    requires CanonicalRank(a) == CanonicalRank(b)
    ensures a == b
  {
  }

  /** Every key is in the reserved list. */
  lemma ReservedKeysComplete(k: PropertyKey)
    ensures k in ReservedKeys
  {
  }
}
