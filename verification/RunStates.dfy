/** Run states, where a run-state source can live, and the two vocabularies that name them
    (domain/run_state.py, domain/run_state_source.py, file_adapter/run_state.py). */
module RunStates {
  import opened Common

  datatype RunState =
    | Todo | InFlight | Ready | Merged
    | InProgress | InPart | InSubmilestone | Flagged | Failed | NeedsHuman
    | Unknown | Absent | Unreadable

  datatype SourceKind = JsonFile | MarkerDirectory

  datatype Source = Source(kind: SourceKind, path: seq<string>)

  /** Probe order, highest precedence first. */
  const RUN_STATE_SOURCE_LOCATIONS: seq<Source> := [
    Source(JsonFile, [".factory", "run-state.json"]),
    Source(MarkerDirectory, [".factory", "run-state"]),
    Source(MarkerDirectory, ["docs", "planning", ".run-state"])
  ]

  /** State directories the console can rank, highest first. */
  const MARKER_PRECEDENCE: seq<string> := ["merged", "ready", "in-flight", "todo"]

  function MarkerState(name: string): RunState
    requires name in MARKER_PRECEDENCE
  {
    if name == "merged" then Merged
    else if name == "ready" then Ready
    else if name == "in-flight" then InFlight
    else Todo
  }

  /** `FACTORY_STATUS_ALIASES.get(status)`. */
  function FactoryStatus(status: string): Option<RunState> {
    match status
    case "todo" => Some(Todo)
    case "in_progress" => Some(InProgress)
    case "ready" => Some(Ready)
    case "in_part" => Some(InPart)
    case "in_submilestone" => Some(InSubmilestone)
    case "merged" => Some(Merged)
    case "flagged" => Some(Flagged)
    case "failed" => Some(Failed)
    case "needs_human" => Some(NeedsHuman)
    case _ => None
  }

  /** What a source said about a ticket that could not be interpreted. */
  datatype Reason =
    | UnmappedStatus(status: string)
    | NoStatus
    | StatusNotAString
    | EntryNotAnObject
    | UnrankedState(directory: string)

  /** One ticket's resolution; an unsafe id raises before any directory is probed. */
  datatype Outcome =
    | Resolved(state: RunState, reason: Option<Reason>)
    | PathTraversal
}
