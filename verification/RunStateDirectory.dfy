/** The legacy run-state directory: `<dir>/<state>/<ticket id>` markers, read by two
    separate resolvers (run_state.py, `probe_ticket_state` and the closure of
    `_run_state_resolver_with_reason`). */
module RunStateDirectory {
  import opened Common
  import opened TicketIds
  import opened RunStates
  import FS = FileSystem

  predicate IsTicketMarkerName(name: string) {
    !StartsWithDot(name) && MatchesIdPattern(name)
  }

  predicate StartsWithDot(name: string) { name != "" && name[0] == '.' }

  /** `_is_directory`. */
  function IsDirectory(root: FS.Node, p: FS.Path): FS.Probe<bool> {
    match FS.Stat(root, p)
    case Found(kind) => FS.Found(kind == FS.Directory)
    case Absent => FS.Found(false)
    case Failed => FS.Failed
  }

  // ---- Which subdirectories the console has no name for -------------------------------

  datatype StateDirectories = StateDirectories(unrecognised: seq<string>, undiscoverable: bool)

  /** An entry the scan keeps: outside the table, not scaffolding, and not ruled out as a
      directory (an entry that would not `stat` is kept). */
  predicate IsUnrecognised(root: FS.Node, dir: FS.Path, name: string) {
    name !in MARKER_PRECEDENCE && !StartsWithDot(name) && IsDirectory(root, dir + [name]) != FS.Found(false)
  }

  ghost function UnrecognisedStates(root: FS.Node, dir: FS.Path): StateDirectories {
    match FS.List(root, dir)
    case Absent => StateDirectories([], false)
    case Failed => StateDirectories([], true)
    case Found(names) =>
      StateDirectories(SortedSet(set n | n in names && IsUnrecognised(root, dir, n)), false)
  }

  /** `_unrecognised_state_names`: the scan, whatever order the listing comes in. */
  method UnrecognisedStateNames(root: FS.Node, dir: FS.Path, entries: FS.Probe<seq<string>>)
    returns (r: StateDirectories)
    requires match FS.List(root, dir)
             case Found(names) =>
               entries.Found? && Distinct(entries.value) && forall n :: n in entries.value <==> n in names
             case Absent => entries.Absent?
             case Failed => entries.Failed?
    ensures r == UnrecognisedStates(root, dir)
  {
    if entries.Absent? {
      return StateDirectories([], false);
    }
    if entries.Failed? {
      return StateDirectories([], true);
    }
    var names: seq<string> := [];
    for i := 0 to |entries.value|
      invariant StrictlySorted(names)
      invariant forall n :: n in names <==> n in entries.value[..i] && IsUnrecognised(root, dir, n)
    {
      var name := entries.value[i];
      assert entries.value[..i + 1] == entries.value[..i] + [name];
      if name in MARKER_PRECEDENCE || StartsWithDot(name) {
        continue;
      }
      var isDirectory := IsDirectory(root, dir + [name]);
      if isDirectory == FS.Found(false) {
        continue;
      }
      InsertSortedIsSorted(name, names);
      names := InsertSorted(name, names);
    }
    assert entries.value[..|entries.value|] == entries.value;
    SortedUnique(names, UnrecognisedStates(root, dir).unrecognised);
    return StateDirectories(names, false);
  }

  /** `_unrecognised_state_naming`: the first unknown state that names the id, and the first
      that could not be looked in. */
  function UnrecognisedNaming(root: FS.Node, dir: FS.Path, names: seq<string>, id: string,
                              unprobeable: Option<string> := None)
    : (Option<string>, Option<string>)
    decreases |names|
  {
    if names == [] then (None, unprobeable)
    else match FS.Stat(root, dir + [names[0], id])
      case Found(_) => (Some(names[0]), None)
      case Absent => UnrecognisedNaming(root, dir, names[1..], id, unprobeable)
      case Failed =>
        UnrecognisedNaming(root, dir, names[1..], id,
                           if unprobeable.None? then Some(names[0]) else unprobeable)
  }

  // ---- Markers and vacuity ------------------------------------------------------------

  /** `_marker_state` over the remaining states of the precedence walk. */
  function FirstMarker(root: FS.Node, dir: FS.Path, states: seq<string>, id: string)
    : FS.Probe<Option<RunState>>
    requires forall s :: s in states ==> s in MARKER_PRECEDENCE
  {
    if states == [] then FS.Found(None)
    else match FS.Stat(root, dir + [states[0], id])
      case Found(_) => FS.Found(Some(MarkerState(states[0])))
      case Absent => FirstMarker(root, dir, states[1..], id)
      case Failed => FS.Failed
  }

  /** `_directory_lists_any_ticket` after the undiscoverable case: does any state list a
      ticket? `None` is "I could not tell". */
  function AnyStateLists(root: FS.Node, dir: FS.Path, states: seq<string>, sawUnreadable: bool := false)
    : Option<bool>
    decreases |states|
  {
    if states == [] then (if sawUnreadable then None else Some(false))
    else match FS.List(root, dir + [states[0]])
      case Found(names) =>
        if exists n :: n in names && IsTicketMarkerName(n) then Some(true)
        else AnyStateLists(root, dir, states[1..], sawUnreadable)
      case Absent => AnyStateLists(root, dir, states[1..], sawUnreadable)
      case Failed => AnyStateLists(root, dir, states[1..], true)
  }

  function ListsAnyTicket(root: FS.Node, dir: FS.Path, sd: StateDirectories): Option<bool> {
    if sd.undiscoverable then None
    else AnyStateLists(root, dir, MARKER_PRECEDENCE + sd.unrecognised)
  }

  // ---- The single-ticket resolver -----------------------------------------------------

  ghost function ProbeTicketState(root: FS.Node, dir: Option<FS.Path>, id: string): Outcome {
    if dir.None? then Resolved(Unknown, None)
    else if !IsSafeSegment(id) then PathTraversal
    else
      var sd := UnrecognisedStates(root, dir.value);
      if sd.undiscoverable then Resolved(Unreadable, None)
      else Resolved(ProbeDiscovered(root, dir.value, sd, id), None)
  }

  function ProbeDiscovered(root: FS.Node, dir: FS.Path, sd: StateDirectories, id: string): RunState {
    var (naming, unprobeable) := UnrecognisedNaming(root, dir, sd.unrecognised, id);
    if naming.Some? || unprobeable.Some? then Unreadable
    else match FirstMarker(root, dir, MARKER_PRECEDENCE, id)
      case Failed => Unreadable
      case Found(Some(state)) => state
      case _ =>
        match IsDirectory(root, dir)
        case Failed => Unreadable
        case Found(false) => Unknown
        case _ =>
          match ListsAnyTicket(root, dir, sd)
          case None => Unreadable
          case Some(lists) => if lists then Absent else Unknown
  }

  // ---- The once-settled resolver ------------------------------------------------------

  /** What the resolver settles before it sees an id. */
  datatype Settled =
    | ConstantlyUnreadable
    | NotADirectory
    | Live(states: StateDirectories, listsSomeone: bool, enumerationFailed: bool)

  ghost function Settle(root: FS.Node, dir: FS.Path): Settled {
    match IsDirectory(root, dir)
    case Failed => ConstantlyUnreadable
    case Found(present) =>
      if present && FS.Stat(root, dir + [MARKER_PRECEDENCE[0]]).Failed? then ConstantlyUnreadable
      else if !present then NotADirectory
      else
        var sd := UnrecognisedStates(root, dir);
        var lists := ListsAnyTicket(root, dir, sd);
        Live(sd, lists == Some(true), lists.None?)
    case Absent => NotADirectory
  }

  function ResolveDirectory(root: FS.Node, dir: FS.Path, settled: Settled, id: string): Outcome {
    match settled
    case ConstantlyUnreadable => Resolved(Unreadable, None)
    case NotADirectory => Resolved(Unknown, None)
    case Live(sd, listsSomeone, enumerationFailed) =>
      if !IsSafeSegment(id) then PathTraversal
      else if sd.undiscoverable then Resolved(Unreadable, None)
      else
        var (naming, unprobeable) := UnrecognisedNaming(root, dir, sd.unrecognised, id);
        if naming.Some? then Resolved(Unreadable, Some(UnrankedState(naming.value)))
        else if unprobeable.Some? then Resolved(Unreadable, None)
        else match FirstMarker(root, dir, MARKER_PRECEDENCE, id)
          case Failed => Resolved(Unreadable, None)
          case Found(Some(state)) => Resolved(state, None)
          case _ =>
            match IsDirectory(root, dir)
            case Failed => Resolved(Unreadable, None)
            case Found(false) => Resolved(Unknown, None)
            case _ =>
              if listsSomeone then Resolved(Absent, None)
              else if enumerationFailed then Resolved(Unreadable, None)
              else Resolved(Unknown, None)
  }
}
