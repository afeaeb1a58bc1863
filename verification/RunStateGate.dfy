/** Discovery, resolution and authorisation end to end, and the property the run-state
    module states about itself: a filesystem that reveals less never permits more
    (run_state.py, `find_run_state_source`; write_gate.py). */
module RunStateGate {
  import opened Common
  import opened TicketIds
  import opened RunStates
  import opened RunStateDirectory
  import opened RunStateVerdict
  import opened RunStateJson
  import Json
  import FS = FileSystem

  /** `is_regular_file`. */
  function IsRegularFile(root: FS.Node, p: FS.Path): FS.Probe<bool> {
    match FS.Stat(root, p)
    case Found(kind) => FS.Found(kind == FS.Regular)
    case Absent => FS.Found(false)
    case Failed => FS.Failed
  }

  function Present(root: FS.Node, s: Source): FS.Probe<bool> {
    if s.kind == JsonFile then IsRegularFile(root, s.path) else IsDirectory(root, s.path)
  }

  /** The probe of the remaining locations: present, or impossible to probe, is the source. */
  function FindSourceIn(root: FS.Node, locations: seq<Source>): Option<Source> {
    if locations == [] then None
    else if Present(root, locations[0]) != FS.Found(false) then Some(locations[0])
    else FindSourceIn(root, locations[1..])
  }

  function FindRunStateSource(root: FS.Node): Option<Source> {
    FindSourceIn(root, RUN_STATE_SOURCE_LOCATIONS)
  }

  /** `probe_ticket_state_with_reason`. */
  ghost function Resolve(root: FS.Node, source: Option<Source>, id: string): Outcome {
    match source
    case None => Resolved(Unknown, None)
    case Some(Source(JsonFile, path)) => ResolveJson(Parse(FS.Read(root, path)), id)
    case Some(Source(MarkerDirectory, path)) => ResolveDirectory(root, path, Settle(root, path), id)
  }

  const MUTABLE_STATES: set<RunState> := {Todo, Unknown}
  const DELETABLE_STATES: set<RunState> := MUTABLE_STATES + {Absent}

  datatype GateError =
    | TicketNotMutable(state: RunState, reason: Option<Reason>)
    | UnsafeId

  /** `_ensure_state_allowed`. */
  ghost function EnsureStateAllowed(root: FS.Node, source: Option<Source>, id: string, allowed: set<RunState>)
    : Result<RunState, GateError>
  {
    match Resolve(root, source, id)
    case PathTraversal => Fail(UnsafeId)
    case Resolved(state, reason) =>
      if state in allowed then Ok(state) else Fail(TicketNotMutable(state, reason))
  }

  datatype Write = Edit | Delete

  /** The writes the gates let through for a project discovered on this tree. */
  ghost function Permitted(root: FS.Node, id: string): set<Write> {
    var source := FindRunStateSource(root);
    (if EnsureStateAllowed(root, source, id, MUTABLE_STATES).Ok? then {Edit} else {}) +
    (if EnsureStateAllowed(root, source, id, DELETABLE_STATES).Ok? then {Delete} else {})
  }

  /** The answer a request gets: discover, then resolve. */
  ghost function AnswerFor(root: FS.Node, id: string): Outcome {
    Resolve(root, FindRunStateSource(root), id)
  }

  predicate Refuses(answer: Outcome) {
    answer == PathTraversal || answer.state == Unreadable
  }

  /** What each answer permits; in particular an edit is never permitted without a delete. */
  lemma PermissionsByState(root: FS.Node, id: string)
    ensures
      var answer := AnswerFor(root, id);
      Permitted(root, id) ==
        if answer == PathTraversal then {}
        else if answer.state == Todo || answer.state == Unknown then {Edit, Delete}
        else if answer.state == Absent then {Delete}
        else {}
  {
  }

  // ---- Degrading the tree -------------------------------------------------------------

  /** One state's part of a verdict can only stay or turn into a refusal. */
  lemma MarkerDegrades(root: FS.Node, worse: FS.Node, dir: FS.Path, state: string, id: string)
    requires FS.Degrades(root, worse)
    ensures MayHold(root, dir, state, id) ==> MayHold(worse, dir, state, id)
    ensures MayHold(worse, dir, state, id) && state in MARKER_PRECEDENCE ==>
      || Answered(worse, dir, state, id) == Unreadable
      || (MayHold(root, dir, state, id) && Answered(worse, dir, state, id) == Answered(root, dir, state, id))
    ensures MayHold(worse, dir, state, id) && !MayHold(root, dir, state, id) ==>
      FS.Stat(worse, dir + [state, id]).Failed?
  {
    FS.ProbesDegrade(root, worse, dir + [state, id]);
  }

  lemma VerdictDegrades(root: FS.Node, worse: FS.Node, dir: FS.Path, id: string)
    requires FS.Degrades(root, worse)
    ensures Verdict(worse, dir, id) == Verdict(root, dir, id) || Verdict(worse, dir, id) == Unreadable
  {
    FS.ProbesDegrade(root, worse, dir);
    if FS.List(worse, dir).Found? {
      var names := FS.List(root, dir).value;
      if UnrankedMayHold(root, dir, names, id) {
        var n :| Unranked(names, n) && MayHold(root, dir, n, id);
        MarkerDegrades(root, worse, dir, n, id);
      }
      MarkerDegrades(root, worse, dir, "merged", id);
      MarkerDegrades(root, worse, dir, "ready", id);
      MarkerDegrades(root, worse, dir, "in-flight", id);
      MarkerDegrades(root, worse, dir, "todo", id);
      VacuityDegrades(root, worse, dir, names);
    }
  }

  lemma VacuityDegrades(root: FS.Node, worse: FS.Node, dir: FS.Path, names: set<string>)
    requires FS.Degrades(root, worse)
    ensures SomeStateLists(worse, dir, names) ==> SomeStateLists(root, dir, names)
    ensures SomeStateLists(root, dir, names) ==>
      SomeStateLists(worse, dir, names) || SomeStateWillNotList(worse, dir, names)
    ensures SomeStateWillNotList(root, dir, names) ==> SomeStateWillNotList(worse, dir, names)
  {
    forall s ensures FS.NoMore(FS.List(root, dir + [s]), FS.List(worse, dir + [s])) {
      FS.ProbesDegrade(root, worse, dir + [s]);
    }
    if SomeStateLists(worse, dir, names) {
      var s :| StateOf(names, s) && ListsATicket(worse, dir, s);
      assert ListsATicket(root, dir, s);
    }
    if SomeStateLists(root, dir, names) {
      var s :| StateOf(names, s) && ListsATicket(root, dir, s);
      assert ListsATicket(worse, dir, s) || FS.List(worse, dir + [s]).Failed?;
    }
  }

  /** Discovery on the degraded tree finds the same source, or one it could not probe. */
  lemma {:induction false} DiscoveryDegrades(root: FS.Node, worse: FS.Node, locations: seq<Source>)
    requires FS.Degrades(root, worse)
    ensures
      var found, degraded := FindSourceIn(root, locations), FindSourceIn(worse, locations);
      || degraded == found
      || (degraded.Some? && Present(worse, degraded.value).Failed?)
    ensures FindSourceIn(root, locations).Some? ==>
      Present(root, FindSourceIn(root, locations).value) != FS.Found(false)
  {
    if locations != [] {
      FS.ProbesDegrade(root, worse, locations[0].path);
      DiscoveryDegrades(root, worse, locations[1..]);
    }
  }

  /** A source that could not be probed refuses every id. */
  lemma UnprobeableSourceRefuses(root: FS.Node, s: Source, id: string)
    requires Present(root, s).Failed?
    ensures Refuses(Resolve(root, Some(s), id))
  {
  }

  lemma SourceAnswerDegrades(root: FS.Node, worse: FS.Node, s: Source, id: string)
    requires FS.Degrades(root, worse) && Present(root, s) != FS.Found(false)
    ensures
      var before, after := Resolve(root, Some(s), id), Resolve(worse, Some(s), id);
      after == before || Refuses(after)
  {
    FS.ProbesDegrade(root, worse, s.path);
    if s.kind == MarkerDirectory {
      ResolverGivesVerdict(root, s.path, id);
      ResolverGivesVerdict(worse, s.path, id);
      VerdictDegrades(root, worse, s.path, id);
      ReasonNamesTheState(root, s.path, id);
      ReasonNamesTheState(worse, s.path, id);
    }
  }

  /** The answer on a degraded tree is the original answer or a refusal of both writes, for
      every id, safe or not. */
  lemma DegradedAnswerIsSameOrRefused(root: FS.Node, worse: FS.Node, id: string)
    requires FS.Degrades(root, worse)
    ensures AnswerFor(worse, id) == AnswerFor(root, id) || Refuses(AnswerFor(worse, id))
  {
    DiscoveryDegrades(root, worse, RUN_STATE_SOURCE_LOCATIONS);
    var source := FindRunStateSource(worse);
    if source != FindRunStateSource(root) {
      UnprobeableSourceRefuses(worse, source.value, id);
    } else if source.Some? {
      SourceAnswerDegrades(root, worse, source.value, id);
    }
  }

  /** Monotonicity in information: no loss of access to the tree grants a write. */
  lemma PermissionsAreMonotone(root: FS.Node, worse: FS.Node, id: string)
    requires FS.Degrades(root, worse)
    ensures Permitted(worse, id) <= Permitted(root, id)
  {
    DegradedAnswerIsSameOrRefused(root, worse, id);
    PermissionsByState(root, id);
    PermissionsByState(worse, id);
  }
}
