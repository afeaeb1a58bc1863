/** The answers said literally, over the tree and the document alone: which source is asked,
    what each status and each marker directory means, and what that permits. */
module RunStateAnswers {
  import opened Common
  import opened Json
  import opened TicketIds
  import opened RunStates
  import opened RunStateDirectory
  import opened RunStateVerdict
  import opened RunStateJson
  import opened RunStateGate
  import FS = FileSystem

  // ---- Which source -------------------------------------------------------------------

  /** The factory's file when it is regular, then its marker directory, then the older one;
      what cannot be probed is taken for present. */
  lemma SourcesInOrder(root: FS.Node)
    ensures
      var file, markers, older := FS.Stat(root, [".factory", "run-state.json"]),
                                  FS.Stat(root, [".factory", "run-state"]),
                                  FS.Stat(root, ["docs", "planning", ".run-state"]);
      FindRunStateSource(root) ==
        if file == FS.Found(FS.Regular) || file.Failed? then Some(Source(JsonFile, [".factory", "run-state.json"]))
        else if markers == FS.Found(FS.Directory) || markers.Failed? then
          Some(Source(MarkerDirectory, [".factory", "run-state"]))
        else if older == FS.Found(FS.Directory) || older.Failed? then
          Some(Source(MarkerDirectory, ["docs", "planning", ".run-state"]))
        else None
  {
    var file, markers, older := Source(JsonFile, [".factory", "run-state.json"]),
                                Source(MarkerDirectory, [".factory", "run-state"]),
                                Source(MarkerDirectory, ["docs", "planning", ".run-state"]);
    assert RUN_STATE_SOURCE_LOCATIONS == [file] + ([markers] + ([older] + []));
    FirstOf(root, older, []);
    FirstOf(root, markers, [older] + []);
    FirstOf(root, file, [markers] + ([older] + []));
  }

  lemma FirstOf(root: FS.Node, s: Source, rest: seq<Source>)
    ensures FindSourceIn(root, [s] + rest) ==
      if Present(root, s) != FS.Found(false) then Some(s) else FindSourceIn(root, rest)
  {
    assert ([s] + rest)[1..] == rest;
  }

  /** A file that was read is regular. */
  lemma ReadIsRegular(root: FS.Node, path: FS.Path)
    requires FS.Read(root, path).Found?
    ensures FS.Stat(root, path) == FS.Found(FS.Regular)
  {
  }

  /** Without any source every write is permitted. */
  lemma NoSourcePermitsAll(root: FS.Node, id: string)
    requires FS.Stat(root, [".factory", "run-state.json"]).Absent?
    requires FS.Stat(root, [".factory", "run-state"]).Absent?
    requires FS.Stat(root, ["docs", "planning", ".run-state"]).Absent?
    ensures AnswerFor(root, id) == Resolved(Unknown, None) && Permitted(root, id) == {Edit, Delete}
  {
    SourcesInOrder(root);
  }

  // ---- The factory's file -------------------------------------------------------------

  /** The factory's file was read, and this is its `tickets` object. */
  ghost predicate HasTickets(root: FS.Node, tickets: Dict) {
    var read := FS.Read(root, [".factory", "run-state.json"]);
    && read.Found? && read.value.Document? && read.value.value.Obj? && IsDict(tickets)
    && Get(read.value.value.members, "tickets") == Some(Obj(tickets))
  }

  lemma AskedOfFile(root: FS.Node, tickets: Dict, id: string)
    requires HasTickets(root, tickets)
    ensures AnswerFor(root, id) == ResolveJson(Parse(FS.Read(root, [".factory", "run-state.json"])), id)
    ensures TicketsOf(FS.Read(root, [".factory", "run-state.json"]).value.value) == Some(tickets)
  {
    ReadIsRegular(root, [".factory", "run-state.json"]);
    SourcesInOrder(root);
  }

  /** The id's entry is an object with this string status. */
  ghost predicate HasStatus(root: FS.Node, id: string, status: string) {
    exists tickets: Dict, entry: Dict ::
      HasTickets(root, tickets) && Get(tickets, id) == Some(Obj(entry)) && Get(entry, "status") == Some(Str(status))
  }

  /** Each of the factory's nine statuses is its own state, and any other is refused by name. */
  lemma StatusIsAnswered(root: FS.Node, id: string, status: string)
    requires HasStatus(root, id, status)
    ensures AnswerFor(root, id) ==
      if status == "todo" then Resolved(Todo, None)
      else if status == "in_progress" then Resolved(InProgress, None)
      else if status == "ready" then Resolved(Ready, None)
      else if status == "in_part" then Resolved(InPart, None)
      else if status == "in_submilestone" then Resolved(InSubmilestone, None)
      else if status == "merged" then Resolved(Merged, None)
      else if status == "flagged" then Resolved(Flagged, None)
      else if status == "failed" then Resolved(Failed, None)
      else if status == "needs_human" then Resolved(NeedsHuman, None)
      else Resolved(Unreadable, Some(UnmappedStatus(status)))
  {
    var tickets: Dict, entry: Dict :|
      HasTickets(root, tickets) && Get(tickets, id) == Some(Obj(entry)) && Get(entry, "status") == Some(Str(status));
    ClaimIsAnswered(root, tickets, id, Obj(entry));
    StatusIsClaimed(entry, status);
  }

  /** A listed ticket gets what its entry claims. */
  lemma ClaimIsAnswered(root: FS.Node, tickets: Dict, id: string, entry: Value)
    requires HasTickets(root, tickets) && Get(tickets, id) == Some(entry)
    ensures AnswerFor(root, id) ==
      match ClaimOf(entry)
      case Says(state) => Resolved(state, None)
      case CannotSay(reason) => Resolved(Unreadable, Some(reason))
  {
    AskedOfFile(root, tickets, id);
    JsonAnswers(FS.Read(root, [".factory", "run-state.json"]), id);
  }

  lemma StatusIsClaimed(entry: Dict, status: string)
    requires Get(entry, "status") == Some(Str(status))
    ensures ClaimOf(Obj(entry)) ==
      if status == "todo" then Says(Todo)
      else if status == "in_progress" then Says(InProgress)
      else if status == "ready" then Says(Ready)
      else if status == "in_part" then Says(InPart)
      else if status == "in_submilestone" then Says(InSubmilestone)
      else if status == "merged" then Says(Merged)
      else if status == "flagged" then Says(Flagged)
      else if status == "failed" then Says(Failed)
      else if status == "needs_human" then Says(NeedsHuman)
      else CannotSay(UnmappedStatus(status))
  {
  }

  /** Of all statuses only `todo` permits anything. */
  lemma OnlyTodoPermits(root: FS.Node, id: string, status: string)
    requires HasStatus(root, id, status)
    ensures Permitted(root, id) == if status == "todo" then {Edit, Delete} else {}
  {
    StatusIsAnswered(root, id, status);
    PermissionsByState(root, id);
  }

  /** What the file says without a status: an entry that is no object, that has none, or one
      that is no string refuses, each with its own reason; a ticket that is not listed beside
      others is absent and may only be deleted; a file that lists nobody permits everything. */
  lemma EntryWithoutStatus(root: FS.Node, id: string, tickets: Dict)
    requires HasTickets(root, tickets)
    ensures tickets == [] ==> AnswerFor(root, id) == Resolved(Unknown, None) && Permitted(root, id) == {Edit, Delete}
    ensures tickets != [] && Get(tickets, id) == None ==>
              AnswerFor(root, id) == Resolved(Absent, None) && Permitted(root, id) == {Delete}
    ensures Get(tickets, id).Some? && !Get(tickets, id).value.Obj? ==>
              AnswerFor(root, id) == Resolved(Unreadable, Some(EntryNotAnObject)) && Permitted(root, id) == {}
    ensures Get(tickets, id).Some? && Get(tickets, id).value.Obj? ==>
              var status := Get(Get(tickets, id).value.members, "status");
              && (status == None || status == Some(Null) ==>
                   AnswerFor(root, id) == Resolved(Unreadable, Some(NoStatus)) && Permitted(root, id) == {})
              && (status.Some? && !status.value.Null? && !status.value.Str? ==>
                   AnswerFor(root, id) == Resolved(Unreadable, Some(StatusNotAString)) && Permitted(root, id) == {})
  {
    PermissionsByState(root, id);
    if Get(tickets, id).Some? {
      ClaimIsAnswered(root, tickets, id, Get(tickets, id).value);
    } else {
      NotListed(root, id, tickets);
    }
  }

  lemma NotListed(root: FS.Node, id: string, tickets: Dict)
    requires HasTickets(root, tickets) && Get(tickets, id).None?
    ensures AnswerFor(root, id) == Resolved(if tickets == [] then Unknown else Absent, None)
  {
    AskedOfFile(root, tickets, id);
    JsonAnswers(FS.Read(root, [".factory", "run-state.json"]), id);
  }

  /** A file that could not be looked up or read refuses; one that was read and is no JSON, or
      has no `tickets` object, says nothing. */
  lemma FileWithoutTickets(root: FS.Node, id: string)
    ensures
      var path := [".factory", "run-state.json"];
      var file, read := FS.Stat(root, path), FS.Read(root, path);
      && (file.Failed? || (file == FS.Found(FS.Regular) && read.Failed?) ==>
           AnswerFor(root, id) == Resolved(Unreadable, None) && Permitted(root, id) == {})
      && (read.Found? && (!read.value.Document? || !read.value.value.Obj?) ==>
           AnswerFor(root, id) == Resolved(Unknown, None) && Permitted(root, id) == {Edit, Delete})
      && (read.Found? && read.value.Document? && read.value.value.Obj? ==>
           var tickets := Get(read.value.value.members, "tickets");
           tickets.None? || !tickets.value.Obj? ==>
             AnswerFor(root, id) == Resolved(Unknown, None) && Permitted(root, id) == {Edit, Delete})
  {
    SourcesInOrder(root);
    PermissionsByState(root, id);
  }

  // ---- Statuses nobody maps -----------------------------------------------------------

  const FACTORY_STATUSES: seq<string> :=
    ["todo", "in_progress", "ready", "in_part", "in_submilestone", "merged", "flagged", "failed", "needs_human"]

  /** The entry's status, when it is a string and none of the nine. */
  function UnmappedOf(entry: Value): Option<string> {
    match entry
    case Obj(members) =>
      (match Get(members, "status")
       case Some(Str(status)) => if status in FACTORY_STATUSES then None else Some(status)
       case _ => None)
    case _ => None
  }

  lemma UnmappedIsClaimed(entry: Value, status: string)
    ensures UnmappedOf(entry) == Some(status) <==> ClaimOf(entry) == CannotSay(UnmappedStatus(status))
  {
    NineStatuses(status);
    match entry
    case Obj(members) =>
      if Get(members, "status").Some? && Get(members, "status").value.Str? {
        NineStatuses(Get(members, "status").value.s);
      }
    case _ =>
  }

  lemma NineStatuses(status: string)
    ensures status in FACTORY_STATUSES <==> FactoryStatus(status).Some?
  {
    assert FACTORY_STATUSES[0] == "todo" && FACTORY_STATUSES[1] == "in_progress" && FACTORY_STATUSES[2] == "ready";
    assert FACTORY_STATUSES[3] == "in_part" && FACTORY_STATUSES[4] == "in_submilestone";
    assert FACTORY_STATUSES[5] == "merged" && FACTORY_STATUSES[6] == "flagged";
    assert FACTORY_STATUSES[7] == "failed" && FACTORY_STATUSES[8] == "needs_human";
  }

  /** Entry `i` is the first with the status that stands at `j`, and the statuses before that
      one are those of the entries before it. */
  ghost predicate IsFirstUnmapped(tickets: Dict, statuses: seq<string>, j: nat, i: nat)
    requires j < |statuses|
  {
    && i < |tickets| && UnmappedOf(tickets[i].1) == Some(statuses[j])
    && (forall k :: 0 <= k < i ==> UnmappedOf(tickets[k].1) != Some(statuses[j]))
    && (forall s :: s in statuses[..j] <==> exists k :: 0 <= k < i && UnmappedOf(tickets[k].1) == Some(s))
  }

  lemma {:induction false} UnmappedAre(tickets: Dict, s: string)
    ensures s in ParseEntries(tickets).unrecognised <==>
            exists k :: 0 <= k < |tickets| && UnmappedOf(tickets[k].1) == Some(s)
  {
    if tickets != [] {
      var n := |tickets| - 1;
      UnmappedAre(tickets[..n], s);
      UnmappedIsClaimed(tickets[n].1, s);
      RecordAdds(ParseEntries(tickets[..n]), tickets[n].0, tickets[n].1);
      assert forall k :: 0 <= k < n ==> tickets[..n][k] == tickets[k];
    }
  }

  lemma RecordAdds(r: JsonRunState, id: string, entry: Value)
    ensures Record(r, id, entry).unrecognised ==
            if UnmappedOf(entry).Some? && UnmappedOf(entry).value !in r.unrecognised
            then r.unrecognised + [UnmappedOf(entry).value] else r.unrecognised
  {
    forall s ensures UnmappedOf(entry) == Some(s) <==> ClaimOf(entry) == CannotSay(UnmappedStatus(s)) {
      UnmappedIsClaimed(entry, s);
    }
  }

  /** The statuses reported as unknown are those of the document that are none of the nine,
      once each and in the order they are first seen. */
  lemma {:induction false} UnmappedInDocumentOrder(tickets: Dict, j: nat)
    requires j < |ParseEntries(tickets).unrecognised|
    ensures exists i: nat :: IsFirstUnmapped(tickets, ParseEntries(tickets).unrecognised, j, i)
  {
    var n := |tickets| - 1;
    var before, all := ParseEntries(tickets[..n]).unrecognised, ParseEntries(tickets).unrecognised;
    RecordAdds(ParseEntries(tickets[..n]), tickets[n].0, tickets[n].1);
    assert forall k :: 0 <= k < n ==> tickets[..n][k] == tickets[k];
    if j < |before| {
      UnmappedInDocumentOrder(tickets[..n], j);
      var i: nat :| IsFirstUnmapped(tickets[..n], before, j, i);
      assert all[..j] == before[..j];
      assert IsFirstUnmapped(tickets, all, j, i);
    } else {
      assert all[..j] == before;
      forall s ensures s in before <==> exists k :: 0 <= k < n && UnmappedOf(tickets[k].1) == Some(s) {
        UnmappedAre(tickets[..n], s);
      }
      assert IsFirstUnmapped(tickets, all, j, n);
    }
  }

  // ---- A marker directory -------------------------------------------------------------

  /** Every state directory the console has no rank for provably does not hold the id. */
  ghost predicate NoOtherState(root: FS.Node, dir: FS.Path, id: string) {
    && FS.List(root, dir).Found?
    && forall n :: n in FS.List(root, dir).value && (n == "" || n[0] != '.')
                   && n != "merged" && n != "ready" && n != "in-flight" && n != "todo" ==>
         FS.Stat(root, dir + [n, id]).Absent?
  }

  function Marker(root: FS.Node, dir: FS.Path, state: string, id: string): FS.Probe<FS.Kind> {
    FS.Stat(root, dir + [state, id])
  }

  /** What the four marker directories mean, highest first. */
  ghost predicate MarkersMean(root: FS.Node, dir: FS.Path, id: string, state: RunState) {
    var merged, ready := Marker(root, dir, "merged", id), Marker(root, dir, "ready", id);
    var inFlight, todo := Marker(root, dir, "in-flight", id), Marker(root, dir, "todo", id);
    && (state == Merged <==> NoOtherState(root, dir, id) && merged.Found?)
    && (state == Ready <==> NoOtherState(root, dir, id) && merged.Absent? && ready.Found?)
    && (state == InFlight <==> NoOtherState(root, dir, id) && merged.Absent? && ready.Absent? && inFlight.Found?)
    && (state == Todo <==>
         NoOtherState(root, dir, id) && merged.Absent? && ready.Absent? && inFlight.Absent? && todo.Found?)
  }

  lemma NoOtherIs(root: FS.Node, dir: FS.Path, id: string)
    requires FS.List(root, dir).Found?
    ensures NoOtherState(root, dir, id) <==> !UnrankedMayHold(root, dir, FS.List(root, dir).value, id)
  {
    var names := FS.List(root, dir).value;
    PrecedenceIsFour();
    if UnrankedMayHold(root, dir, names, id) {
      var n :| Unranked(names, n) && MayHold(root, dir, n, id);
      assert !FS.Stat(root, dir + [n, id]).Absent?;
    } else {
      forall n | Unranked(names, n) ensures FS.Stat(root, dir + [n, id]).Absent? {
        assert !MayHold(root, dir, n, id);
      }
    }
  }

  lemma VerdictIsLiteral(root: FS.Node, dir: FS.Path, id: string)
    ensures MarkersMean(root, dir, id, Verdict(root, dir, id))
  {
    if FS.List(root, dir).Found? {
      NoOtherIs(root, dir, id);
    }
  }

  /** Both directory resolvers read a marker as the state its directory names, the highest
      one first, and only when every other state provably does not hold the id. */
  lemma MarkersAreRead(root: FS.Node, dir: FS.Path, id: string)
    requires IsSafeSegment(id)
    ensures
      var probed, settled := ProbeTicketState(root, Some(dir), id), ResolveDirectory(root, dir, Settle(root, dir), id);
      && probed.Resolved? && settled.Resolved?
      && MarkersMean(root, dir, id, probed.state) && MarkersMean(root, dir, id, settled.state)
  {
    ProbeGivesVerdict(root, dir, id);
    ResolverGivesVerdict(root, dir, id);
    VerdictIsLiteral(root, dir, id);
  }

  /** A state directory lists a ticket when it could be listed and some name in it is made of
      id characters and does not begin with a dot. */
  lemma TicketIsListed(root: FS.Node, dir: FS.Path, state: string)
    ensures ListsATicket(root, dir, state) <==>
      && FS.List(root, dir + [state]).Found?
      && exists n :: n in FS.List(root, dir + [state]).value && IsMarkerText(n)
  {
    forall n ensures IsTicketMarkerName(n) <==> IsMarkerText(n) {
    }
  }

  predicate IsMarkerText(n: string) {
    && n != "" && n[0] != '.'
    && forall i :: 0 <= i < |n| ==>
         || 'A' <= n[i] <= 'Z' || 'a' <= n[i] <= 'z' || '0' <= n[i] <= '9'
         || n[i] == '_' || n[i] == '-' || n[i] == '.'
  }

  // ---- Why a write was refused --------------------------------------------------------

  /** A gate that refuses says the state, and the reason when there is one. */
  lemma RefusalSays(root: FS.Node, id: string)
    ensures
      var source, answer := FindRunStateSource(root), AnswerFor(root, id);
      && EnsureStateAllowed(root, source, id, MUTABLE_STATES) ==
           (if answer == PathTraversal then Fail(UnsafeId)
            else if answer.state == Todo || answer.state == Unknown then Ok(answer.state)
            else Fail(TicketNotMutable(answer.state, answer.reason)))
      && EnsureStateAllowed(root, source, id, DELETABLE_STATES) ==
           (if answer == PathTraversal then Fail(UnsafeId)
            else if answer.state == Todo || answer.state == Unknown || answer.state == Absent then Ok(answer.state)
            else Fail(TicketNotMutable(answer.state, answer.reason)))
  {
  }

  /** The listed state directory has no rank and does hold the id. */
  ghost predicate HeldUnranked(root: FS.Node, dir: FS.Path, id: string, n: string) {
    FS.List(root, dir).Found? && Unranked(FS.List(root, dir).value, n) && FS.Stat(root, dir + [n, id]).Found?
  }

  /** The reason names the first one, in string order, of the unranked states that hold the
      id; and there is one whenever some such state is found and `merged` can be probed. */
  lemma ReasonIsFirstHolder(root: FS.Node, dir: FS.Path, id: string, n: string)
    requires IsSafeSegment(id)
    ensures
      ResolveDirectory(root, dir, Settle(root, dir), id) == Resolved(Unreadable, Some(UnrankedState(n))) <==>
      && !FS.Stat(root, dir + ["merged"]).Failed?
      && HeldUnranked(root, dir, id, n)
      && forall m :: HeldUnranked(root, dir, id, m) ==> m == n || StrLess(n, m)
  {
    if FS.List(root, dir).Found? {
      FS.WalkIsResolved(root, dir);
      var sd := UnrecognisedStates(root, dir);
      HoldersAreScanned(root, dir, id);
      FirstHolderIsNamed(root, dir, sd.unrecognised, id, None, n);
      forall m | m in sd.unrecognised ensures Unranked(FS.List(root, dir).value, m) {
      }
    }
  }

  lemma HoldersAreScanned(root: FS.Node, dir: FS.Path, id: string)
    ensures forall m :: HeldUnranked(root, dir, id, m) ==> m in UnrecognisedStates(root, dir).unrecognised
  {
    forall m | HeldUnranked(root, dir, id, m) ensures m in UnrecognisedStates(root, dir).unrecognised {
      if IsDirectory(root, dir + [m]) == FS.Found(false) {
        NotADirectoryHoldsNothing(root, dir, m, id);
      }
    }
  }

  lemma {:induction false} FirstHolderIsNamed(root: FS.Node, dir: FS.Path, names: seq<string>, id: string,
                                              unprobeable: Option<string>, n: string)
    requires StrictlySorted(names)
    ensures
      UnrecognisedNaming(root, dir, names, id, unprobeable).0 == Some(n) <==>
      && n in names && FS.Stat(root, dir + [n, id]).Found?
      && forall m :: m in names && FS.Stat(root, dir + [m, id]).Found? ==> m == n || StrLess(n, m)
    decreases |names|
  {
    if names != [] {
      TailOfSorted(names);
      assert names == [names[0]] + names[1..];
      var probe := FS.Stat(root, dir + [names[0], id]);
      if probe.Found? {
        if n in names && n != names[0] {
          assert StrLess(names[0], n);
          NotBothLess(n, names[0]);
        }
      } else {
        FirstHolderIsNamed(root, dir, names[1..], id,
                           if probe.Failed? && unprobeable.None? then Some(names[0]) else unprobeable, n);
      }
    }
  }

  lemma NotBothLess(a: string, b: string)
    ensures !(StrLess(a, b) && StrLess(b, a))
  {
    if StrLess(a, b) && StrLess(b, a) {
      StrLessTransitive(a, b, a);
      StrLessIrreflexive(a);
    }
  }
}
