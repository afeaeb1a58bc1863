/** What the two directory resolvers compute, said without scans, sorting or accumulators:
    which probes of the tree decide an id. Both resolvers refine it, so they agree. */
module RunStateVerdict {
  import opened Common
  import opened TicketIds
  import opened RunStates
  import opened RunStateDirectory
  import FS = FileSystem

  /** A listed state directory name the console cannot rank. */
  predicate Unranked(names: set<string>, n: string) {
    n in names && n !in MARKER_PRECEDENCE && !StartsWithDot(n)
  }

  /** `<dir>/<state>/<id>` is there, or could not be ruled out. */
  predicate MayHold(root: FS.Node, dir: FS.Path, state: string, id: string) {
    !FS.Stat(root, dir + [state, id]).Absent?
  }

  predicate ListsATicket(root: FS.Node, dir: FS.Path, state: string) {
    var l := FS.List(root, dir + [state]);
    l.Found? && exists n :: n in l.value && IsTicketMarkerName(n)
  }

  /** Some state the console cannot rank may hold the id. */
  ghost predicate UnrankedMayHold(root: FS.Node, dir: FS.Path, names: set<string>, id: string) {
    exists n :: Unranked(names, n) && MayHold(root, dir, n, id)
  }

  ghost predicate StateOf(names: set<string>, s: string) {
    s in MARKER_PRECEDENCE || Unranked(names, s)
  }

  ghost predicate SomeStateLists(root: FS.Node, dir: FS.Path, names: set<string>) {
    exists s :: StateOf(names, s) && ListsATicket(root, dir, s)
  }

  ghost predicate SomeStateWillNotList(root: FS.Node, dir: FS.Path, names: set<string>) {
    exists s :: StateOf(names, s) && FS.List(root, dir + [s]).Failed?
  }

  function Answered(root: FS.Node, dir: FS.Path, state: string, id: string): RunState
    requires state in MARKER_PRECEDENCE
  {
    if FS.Stat(root, dir + [state, id]).Found? then MarkerState(state) else Unreadable
  }

  ghost function Verdict(root: FS.Node, dir: FS.Path, id: string): RunState {
    match FS.List(root, dir)
    case Failed => Unreadable
    case Absent => Unknown
    case Found(names) =>
      if UnrankedMayHold(root, dir, names, id) then Unreadable
      else if MayHold(root, dir, "merged", id) then Answered(root, dir, "merged", id)
      else if MayHold(root, dir, "ready", id) then Answered(root, dir, "ready", id)
      else if MayHold(root, dir, "in-flight", id) then Answered(root, dir, "in-flight", id)
      else if MayHold(root, dir, "todo", id) then Answered(root, dir, "todo", id)
      else if SomeStateLists(root, dir, names) then Absent
      else if SomeStateWillNotList(root, dir, names) then Unreadable
      else Unknown
  }

  // ---- The walks, characterised -------------------------------------------------------

  lemma {:induction false} NamingRefuses(root: FS.Node, dir: FS.Path, names: seq<string>, id: string,
                                         unprobeable: Option<string>)
    ensures
      var (naming, refused) := UnrecognisedNaming(root, dir, names, id, unprobeable);
      && (naming.Some? || refused.Some? <==>
           unprobeable.Some? || exists n :: n in names && MayHold(root, dir, n, id))
      && (naming.Some? ==> naming.value in names && FS.Stat(root, dir + [naming.value, id]).Found?)
    decreases |names|
  {
    if names != [] {
      assert names == [names[0]] + names[1..];
      var probe := FS.Stat(root, dir + [names[0], id]);
      assert MayHold(root, dir, names[0], id) <==> !probe.Absent?;
      NamingRefuses(root, dir, names[1..], id,
                    if probe.Failed? && unprobeable.None? then Some(names[0]) else unprobeable);
    }
  }

  lemma {:induction false} ScanDecides(root: FS.Node, dir: FS.Path, states: seq<string>, saw: bool)
    ensures AnyStateLists(root, dir, states, saw) ==
      if exists s :: s in states && ListsATicket(root, dir, s) then Some(true)
      else if saw || exists s :: s in states && FS.List(root, dir + [s]).Failed? then None
      else Some(false)
    decreases |states|
  {
    if states != [] {
      assert states == [states[0]] + states[1..];
      var listing := FS.List(root, dir + [states[0]]);
      ScanDecides(root, dir, states[1..], saw || listing.Failed?);
      assert ListsATicket(root, dir, states[0]) <==>
             listing.Found? && exists n :: n in listing.value && IsTicketMarkerName(n);
    }
  }

  // ---- Coherence of the tree under a state directory ----------------------------------

  /** An entry that is known not to be a directory holds nothing and lists nothing. */
  lemma NotADirectoryHoldsNothing(root: FS.Node, dir: FS.Path, n: string, id: string)
    requires IsDirectory(root, dir + [n]) == FS.Found(false)
    ensures !MayHold(root, dir, n, id)
    ensures FS.List(root, dir + [n]).Absent?
  {
    FS.WalkUnder(root, dir + [n], [id]);
    assert dir + [n] + [id] == dir + [n, id];
    FS.WalkIsResolved(root, dir + [n]);
  }

  /** If the canary `stat` fails, so does every `stat` under it. */
  lemma FailedStateHidesItsMarkers(root: FS.Node, dir: FS.Path, state: string, id: string)
    requires FS.Stat(root, dir + [state]).Failed?
    ensures FS.Stat(root, dir + [state, id]).Failed?
  {
    FS.WalkUnder(root, dir + [state], [id]);
    assert dir + [state] + [id] == dir + [state, id];
  }

  lemma NothingUnderNoDirectory(root: FS.Node, dir: FS.Path, state: string, id: string)
    requires FS.List(root, dir).Absent?
    ensures !MayHold(root, dir, state, id)
  {
    FS.WalkIsResolved(root, dir);
    FS.WalkUnder(root, dir, [state, id]);
  }

  // ---- Scan results against the listing -----------------------------------------------

  lemma UnrecognisedCoverTheListing(root: FS.Node, dir: FS.Path, names: set<string>, id: string)
    requires FS.List(root, dir) == FS.Found(names)
    ensures
      var sd := UnrecognisedStates(root, dir);
      && !sd.undiscoverable
      && (forall n :: n in sd.unrecognised ==> Unranked(names, n))
      && ((exists n :: n in sd.unrecognised && MayHold(root, dir, n, id)) <==>
           UnrankedMayHold(root, dir, names, id))
  {
    var sd := UnrecognisedStates(root, dir);
    forall n | Unranked(names, n) && n !in sd.unrecognised ensures !MayHold(root, dir, n, id) {
      NotADirectoryHoldsNothing(root, dir, n, id);
    }
  }

  lemma ScanIsVacuity(root: FS.Node, dir: FS.Path, names: set<string>)
    requires FS.List(root, dir) == FS.Found(names)
    ensures ListsAnyTicket(root, dir, UnrecognisedStates(root, dir)) ==
      if SomeStateLists(root, dir, names) then Some(true)
      else if SomeStateWillNotList(root, dir, names) then None
      else Some(false)
  {
    var states := MARKER_PRECEDENCE + UnrecognisedStates(root, dir).unrecognised;
    ScanDecides(root, dir, states, false);
    forall s | StateOf(names, s) && s !in states ensures FS.List(root, dir + [s]).Absent? {
      NotADirectoryHoldsNothing(root, dir, s, "");
    }
    assert forall s :: s in states ==> StateOf(names, s);
  }

  lemma WalkStep(root: FS.Node, dir: FS.Path, rest: seq<string>, state: string, id: string)
    requires state in MARKER_PRECEDENCE && forall s :: s in rest ==> s in MARKER_PRECEDENCE
    ensures forall s :: s in [state] + rest ==> s in MARKER_PRECEDENCE
    ensures FirstMarker(root, dir, [state] + rest, id) ==
      if MayHold(root, dir, state, id) then MarkerAnswer(root, dir, state, id)
      else FirstMarker(root, dir, rest, id)
  {
    assert ([state] + rest)[1..] == rest;
  }

  /** The precedence walk, unrolled over the four names it ranks. */
  lemma WalkIsPrecedence(root: FS.Node, dir: FS.Path, id: string)
    ensures FirstMarker(root, dir, MARKER_PRECEDENCE, id) ==
      if MayHold(root, dir, "merged", id) then MarkerAnswer(root, dir, "merged", id)
      else if MayHold(root, dir, "ready", id) then MarkerAnswer(root, dir, "ready", id)
      else if MayHold(root, dir, "in-flight", id) then MarkerAnswer(root, dir, "in-flight", id)
      else if MayHold(root, dir, "todo", id) then MarkerAnswer(root, dir, "todo", id)
      else FS.Found(None)
  {
    WalkStep(root, dir, [], "todo", id);
    WalkStep(root, dir, ["todo"], "in-flight", id);
    WalkStep(root, dir, ["in-flight", "todo"], "ready", id);
    WalkStep(root, dir, ["ready", "in-flight", "todo"], "merged", id);
  }

  function MarkerAnswer(root: FS.Node, dir: FS.Path, state: string, id: string): FS.Probe<Option<RunState>>
    requires state in MARKER_PRECEDENCE
  {
    if FS.Stat(root, dir + [state, id]).Found? then FS.Found(Some(MarkerState(state))) else FS.Failed
  }

  // ---- Both resolvers compute the verdict ---------------------------------------------

  lemma ProbeGivesVerdict(root: FS.Node, dir: FS.Path, id: string)
    ensures ProbeTicketState(root, Some(dir), id) ==
      if IsSafeSegment(id) then Resolved(Verdict(root, dir, id), None) else PathTraversal
  {
    WalkIsPrecedence(root, dir, id);
    var sd := UnrecognisedStates(root, dir);
    NamingRefuses(root, dir, sd.unrecognised, id, None);
    match FS.List(root, dir)
    case Found(names) =>
      UnrecognisedCoverTheListing(root, dir, names, id);
      ScanIsVacuity(root, dir, names);
    case Absent =>
      forall s ensures !MayHold(root, dir, s, id) { NothingUnderNoDirectory(root, dir, s, id); }
    case Failed =>
  }

  /** Whether the resolver reaches its per-id closure. */
  predicate Probed(root: FS.Node, dir: FS.Path) {
    IsDirectory(root, dir) == FS.Found(true) && !FS.Stat(root, dir + [MARKER_PRECEDENCE[0]]).Failed?
  }

  lemma ResolverGivesVerdict(root: FS.Node, dir: FS.Path, id: string)
    ensures
      var answer := ResolveDirectory(root, dir, Settle(root, dir), id);
      if IsSafeSegment(id) then answer.Resolved? && answer.state == Verdict(root, dir, id)
      else if Probed(root, dir) then answer == PathTraversal
      else answer == Resolved(if IsDirectory(root, dir).Failed? || IsDirectory(root, dir) == FS.Found(true)
                              then Unreadable else Unknown, None)
  {
    if IsSafeSegment(id) {
      if FS.Stat(root, dir + ["merged"]).Failed? {
        CanaryFails(root, dir, id);
      } else if FS.List(root, dir).Found? {
        ListedGivesVerdict(root, dir, FS.List(root, dir).value, id);
      }
    }
  }

  /** A canary that cannot be looked up refuses, and so does the verdict. */
  lemma CanaryFails(root: FS.Node, dir: FS.Path, id: string)
    requires IsSafeSegment(id) && FS.Stat(root, dir + ["merged"]).Failed?
    ensures
      var answer := ResolveDirectory(root, dir, Settle(root, dir), id);
      answer.Resolved? && answer.state == Verdict(root, dir, id)
  {
    FailedStateHidesItsMarkers(root, dir, "merged", id);
    FS.WalkIsResolved(root, dir);
    if FS.List(root, dir).Absent? {
      NothingUnderNoDirectory(root, dir, "merged", id);
    }
  }

  lemma ListedGivesVerdict(root: FS.Node, dir: FS.Path, names: set<string>, id: string)
    requires IsSafeSegment(id) && FS.List(root, dir) == FS.Found(names) && !FS.Stat(root, dir + ["merged"]).Failed?
    ensures
      var answer := ResolveDirectory(root, dir, Settle(root, dir), id);
      answer.Resolved? && answer.state == Verdict(root, dir, id)
  {
    ProbeGivesVerdict(root, dir, id);
    FS.WalkIsResolved(root, dir);
    LiveProbes(root, dir, UnrecognisedStates(root, dir), id);
  }

  /** Past its own settling the resolver decides as the single probe does. */
  lemma LiveProbes(root: FS.Node, dir: FS.Path, sd: StateDirectories, id: string)
    requires IsSafeSegment(id) && !sd.undiscoverable
    ensures
      var lists := ListsAnyTicket(root, dir, sd);
      var answer := ResolveDirectory(root, dir, Live(sd, lists == Some(true), lists.None?), id);
      answer.Resolved? && answer.state == ProbeDiscovered(root, dir, sd, id)
  {
  }

  /** The two directory resolvers agree on every tree and every safe id; on an unsafe id the
      single probe always raises, the settled resolver exactly when it probes the directory. */
  lemma DirectoryResolversAgree(root: FS.Node, dir: FS.Path, id: string)
    ensures
      var settled := ResolveDirectory(root, dir, Settle(root, dir), id);
      var probed := ProbeTicketState(root, Some(dir), id);
      if IsSafeSegment(id) then settled.Resolved? && probed == Resolved(settled.state, None)
      else probed == PathTraversal && (settled == PathTraversal <==> Probed(root, dir))
  {
    ProbeGivesVerdict(root, dir, id);
    ResolverGivesVerdict(root, dir, id);
  }

  /** A refusal's reason names a state directory that does hold the id and has no rank. */
  lemma ReasonNamesTheState(root: FS.Node, dir: FS.Path, id: string)
    ensures
      var answer := ResolveDirectory(root, dir, Settle(root, dir), id);
      answer.Resolved? && answer.reason.Some? ==>
        && answer.state == Unreadable
        && answer.reason.value.UnrankedState?
        && answer.reason.value.directory !in MARKER_PRECEDENCE
        && FS.Stat(root, dir + [answer.reason.value.directory, id]).Found?
  {
    var sd := UnrecognisedStates(root, dir);
    NamingRefuses(root, dir, sd.unrecognised, id, None);
  }

  // ---- What a permissive answer is worth ----------------------------------------------

  /** The listing worked, no state, ranked or not, may hold the id, and some state lists a
      ticket. */
  ghost predicate ProvablyUntracked(root: FS.Node, dir: FS.Path, id: string) {
    && FS.List(root, dir).Found?
    && (forall s :: StateOf(FS.List(root, dir).value, s) ==> !MayHold(root, dir, s, id))
    && SomeStateLists(root, dir, FS.List(root, dir).value)
  }

  /** The listing worked, `todo` does hold the id, and every other state provably does not. */
  ghost predicate ProvablyTodo(root: FS.Node, dir: FS.Path, id: string) {
    && FS.List(root, dir).Found?
    && FS.Stat(root, dir + ["todo", id]).Found?
    && (forall s :: StateOf(FS.List(root, dir).value, s) && s != "todo" ==> !MayHold(root, dir, s, id))
  }

  /** There is no directory, or every state, ranked or not, was looked in, provably does not
      hold the id, and lists no ticket at all. */
  ghost predicate NothingWasSaid(root: FS.Node, dir: FS.Path, id: string) {
    || FS.List(root, dir).Absent?
    || (FS.List(root, dir).Found? && forall s :: StateOf(FS.List(root, dir).value, s) ==>
          !MayHold(root, dir, s, id) && !ListsATicket(root, dir, s) && !FS.List(root, dir + [s]).Failed?)
  }

  lemma VerdictIsAbsent(root: FS.Node, dir: FS.Path, id: string)
    ensures Verdict(root, dir, id) == Absent <==> ProvablyUntracked(root, dir, id)
  {
    if FS.List(root, dir).Found? {
      var names := FS.List(root, dir).value;
      assert forall s :: s in MARKER_PRECEDENCE ==> StateOf(names, s);
      PrecedenceIsFour();
    }
  }

  lemma VerdictIsTodo(root: FS.Node, dir: FS.Path, id: string)
    ensures Verdict(root, dir, id) == Todo <==> ProvablyTodo(root, dir, id)
  {
    if FS.List(root, dir).Found? {
      var names := FS.List(root, dir).value;
      assert forall s :: s in MARKER_PRECEDENCE ==> StateOf(names, s);
      PrecedenceIsFour();
    }
  }

  lemma VerdictIsUnknown(root: FS.Node, dir: FS.Path, id: string)
    ensures Verdict(root, dir, id) == Unknown <==> NothingWasSaid(root, dir, id)
  {
    if FS.List(root, dir).Found? {
      var names := FS.List(root, dir).value;
      assert forall s :: s in MARKER_PRECEDENCE ==> StateOf(names, s);
      PrecedenceIsFour();
    }
  }

  /** Every permissive answer of the probe is justified by the tree, and given whenever it is. */
  lemma PermissiveProbesAreJustified(root: FS.Node, dir: FS.Path, id: string)
    requires IsSafeSegment(id)
    ensures
      var answer := ProbeTicketState(root, Some(dir), id);
      && (answer == Resolved(Absent, None) <==> ProvablyUntracked(root, dir, id))
      && (answer == Resolved(Todo, None) <==> ProvablyTodo(root, dir, id))
      && (answer == Resolved(Unknown, None) <==> NothingWasSaid(root, dir, id))
  {
    ProbeGivesVerdict(root, dir, id);
    VerdictIsAbsent(root, dir, id);
    VerdictIsTodo(root, dir, id);
    VerdictIsUnknown(root, dir, id);
  }

  /** And so is every permissive answer of the settled resolver. */
  lemma PermissiveResolutionsAreJustified(root: FS.Node, dir: FS.Path, id: string)
    requires IsSafeSegment(id)
    ensures
      var answer := ResolveDirectory(root, dir, Settle(root, dir), id);
      && answer.Resolved?
      && (answer.state == Absent <==> ProvablyUntracked(root, dir, id))
      && (answer.state == Todo <==> ProvablyTodo(root, dir, id))
      && (answer.state == Unknown <==> NothingWasSaid(root, dir, id))
  {
    ResolverGivesVerdict(root, dir, id);
    VerdictIsAbsent(root, dir, id);
    VerdictIsTodo(root, dir, id);
    VerdictIsUnknown(root, dir, id);
  }

  lemma PrecedenceIsFour()
    ensures forall s :: s in MARKER_PRECEDENCE <==> s == "merged" || s == "ready" || s == "in-flight" || s == "todo"
  {
  }
}
