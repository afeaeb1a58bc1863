/** The write path and the read path agree: when an edit reads back as the edit, whatever file
    the ticket's entry declares, and what it leaves alone. */
module WriterLaws {
  import opened Common
  import opened Json
  import opened Paths
  import opened Project
  import opened TicketIds
  import opened TicketJson
  import opened Manifest
  import opened TicketReader
  import opened WriteRender
  import opened EntryLaws
  import opened AtomicWrite
  import opened PlanLaws
  import opened Lines
  import opened RealWriter
  import AtomicLaws
  import RunStates
  import Gate = RunStateGate

  // ---- Entries ------------------------------------------------------------------------

  lemma WithDependsOnIsWellFormed(entry: Dict, dependsOn: seq<string>)
    requires WellFormedDict(entry)
    ensures WellFormedDict(WithDependsOn(entry, dependsOn))
  {
    PopIsWellFormed(entry, "depends_on");
    PopIsWellFormed(Pop(entry, "depends_on"), "dependsOn");
    PutIsWellFormed(Pop(Pop(entry, "depends_on"), "dependsOn"), DependsOnKey(entry), Arr(Strings(dependsOn)));
  }

  lemma MergedIsWellFormed(entry: Dict, e: Edit)
    requires WellFormedDict(entry)
    ensures WellFormedDict(MergeEdit(entry, e))
  {
    var a := Put(entry, "title", Str(e.title));
    var b := Put(a, "track", OrNull(e.track));
    var c := Put(b, "milestone", OrNull(e.milestone));
    var d := Put(c, "dependsOn", Arr(Strings(e.dependsOn)));
    PutIsWellFormed(entry, "title", Str(e.title));
    PutIsWellFormed(a, "track", OrNull(e.track));
    PutIsWellFormed(b, "milestone", OrNull(e.milestone));
    PutIsWellFormed(c, "dependsOn", Arr(Strings(e.dependsOn)));
    PutIsWellFormed(d, "provides", Str(e.provided));
    WithDependsOnIsWellFormed(Overlay(entry, e), e.dependsOn);
  }

  function ProvidedOf(provided: string): seq<string> { if provided == "" then [] else [provided] }

  /** The ticket an edit asks for. */
  function EditedTicket(id: string, status: string, e: Edit): Ticket {
    Ticket(id, e.title, status, e.track, e.milestone, e.dependsOn, ProvidedOf(e.provided), Some(Normal(e.fields)))
  }

  function StatusOf(entry: Dict): string {
    var status := StringOr(Get(entry, "status"));
    if status.Some? then status.value else ""
  }

  /** What an edit does not overwrite can be read. */
  predicate IsEditable(entry: Dict) { IsFileList(Get(entry, "files")) && StringOr(Get(entry, "status")).Some? }

  /** An edited entry is read as the edit, or not at all. */
  lemma MergedStub(entry: Dict, e: Edit)
    requires IsDict(entry) && EntryId(entry).Some? && MatchesIdPattern(EntryId(entry).value)
    ensures StubOf(MergeEdit(entry, e)) ==
      if IsEditable(entry) then Some(EditedTicket(EntryId(entry).value, StatusOf(entry), e).(content := None)) else None
  {
    EditedEntryHasOneKey(entry, e);
    EditedEntryHoldsEdit(entry, e);
    EditedEntryKeepsRest(entry, e, "id");
    EditedEntryKeepsRest(entry, e, "status");
    EditedEntryKeepsRest(entry, e, "files");
    StubFromEdit(EntryId(entry), Get(entry, "status"), e);
  }

  lemma StubFromEdit(id: Option<string>, status: Option<Value>, e: Edit)
    requires id.Some? && MatchesIdPattern(id.value)
    ensures StubFrom(id, Some(Str(e.title)), status, Some(OrNull(e.track)), Some(OrNull(e.milestone)),
                     Some(e.dependsOn), Some(Str(e.provided)))
            == if StringOr(status).Some? then Some(EditedTicket(id.value, StringOr(status).value, e).(content := None))
               else None
  {
  }

  /** An edit does not move a ticket's file. */
  lemma MergedResolvesAlike(c: Codec, p: Project, entry: Dict, e: Edit, id: string)
    requires IsDict(entry)
    ensures EntryId(MergeEdit(entry, e)) == EntryId(entry)
    ensures DeclaredPath(c, MergeEdit(entry, e)) == DeclaredPath(c, entry)
    ensures ReadContentPath(c, p, MergeEdit(entry, e), id) == ReadContentPath(c, p, entry, id)
  {
    EditedEntryKeepsRest(entry, e, "id");
    EditedEntryKeepsRest(entry, e, "path");
  }

  // ---- Edit, then read ----------------------------------------------------------------

  /** The parts of a successful edit plan. */
  datatype EditPlan = EditPlan(document: Document, index: nat, path: Path, content: Value)

  ghost predicate IsEditPlan(c: Codec, p: Project, disk: Disk, id: string, e: Edit, x: EditPlan) {
    && LoadManifest(c, disk, p.Manifest()) == Ok(x.document)
    && FindEntry(x.document.tickets, id) == Some(x.index)
    && EntryContentPath(c, p, x.document.tickets[x.index], id) == Some(x.path)
    && SuffixOf(x.path) == ".json" && !IsObstructed(disk, x.path)
    && Render(id, e.fields) == Some(x.content)
    && MatchesIdPattern(id)
  }

  /** The plan they make. */
  function PlanOfEdit(c: Codec, p: Project, disk: Disk, id: string, e: Edit, x: EditPlan): Plan {
    ThreeFiles(p, c.dumps(Obj(EditedObject(x, e))), x.path, Some(c.dumps(x.content)),
               RoadmapChange(p.roadmap, RoadmapText(p, disk), EditInRoadmap(id, e)))
  }

  function EditedObject(x: EditPlan, e: Edit): Dict {
    Put(x.document.obj, "tickets", Arr(Objects(EditedTickets(x, e))))
  }

  function EditedTickets(x: EditPlan, e: Edit): seq<Dict> {
    if x.index < |x.document.tickets|
    then x.document.tickets[x.index := MergeEdit(x.document.tickets[x.index], e)]
    else x.document.tickets
  }

  lemma EditPlanOf(c: Codec, p: Project, disk: Disk, id: string, e: Edit) returns (x: EditPlan)
    requires RenderEdit(c, p, disk, id, e).Ok?
    ensures IsEditPlan(c, p, disk, id, e, x)
    ensures RenderEdit(c, p, disk, id, e) == Ok(PlanOfEdit(c, p, disk, id, e, x))
  {
    var document := LoadManifest(c, disk, p.Manifest()).value;
    var index := FindEntry(document.tickets, id).value;
    var path := EntryContentPath(c, p, document.tickets[index], id).value;
    x := EditPlan(document, index, path, Render(id, e.fields).value);
  }

  /** A manifest in which one entry was replaced by one with the same id. */
  lemma ReplacedManifest(c: Codec, p: Project, after: Disk, obj: Dict, tickets: seq<Dict>, i: nat, entry: Dict,
                         id: string)
    requires IsJson(c) && WellFormedDict(obj) && UniqueIds(tickets) && i < |tickets| && WellFormedDict(entry)
    requires forall k :: 0 <= k < |tickets| ==> WellFormedDict(tickets[k])
    requires EntryId(entry) == EntryId(tickets[i]) == Some(id)
    requires Opened(after, p.Manifest()) == FileOf(ManifestChange(c, p, obj, tickets[i := entry]).newText)
    ensures LoadManifest(c, after, p.Manifest())
            == Ok(Document(Put(obj, "tickets", Arr(Objects(tickets[i := entry]))), tickets[i := entry]))
    ensures FindEntry(tickets[i := entry], id) == Some(i)
  {
    var updated := tickets[i := entry];
    ManifestReadsBack(c, p, after, obj, updated);
    FindEntryIs(updated, id, i);
  }

  /** The manifest after an edit: the entry at one index replaced, everything else kept. */
  lemma EditedManifest(c: Codec, p: Project, disk: Disk, after: Disk, id: string, e: Edit, x: EditPlan)
    requires IsJson(c) && IsEditPlan(c, p, disk, id, e, x)
    requires Opened(after, p.Manifest()) == Some(Text(c.dumps(Obj(EditedObject(x, e)))))
    ensures LoadManifest(c, after, p.Manifest()) == Ok(Document(EditedObject(x, e), EditedTickets(x, e)))
    ensures FindEntry(EditedTickets(x, e), id) == Some(x.index)
  {
    LoadedIsWellFormed(c, disk, p.Manifest());
    var entry := x.document.tickets[x.index];
    MergedIsWellFormed(entry, e);
    MergedResolvesAlike(c, p, entry, e, id);
    ReplacedManifest(c, p, after, x.document.obj, x.document.tickets, x.index, MergeEdit(entry, e), id);
  }

  lemma FindEntryIs(tickets: seq<Dict>, id: string, i: nat)
    requires UniqueIds(tickets) && i < |tickets| && EntryId(tickets[i]) == Some(id)
    ensures FindEntry(tickets, id) == Some(i)
  {
  }

  /** A ticket whose entry and file are in place is read whole, once the reader gets there. */
  lemma TicketIsRead(c: Codec, p: Project, disk: Disk, tickets: seq<Dict>, obj: Dict, i: nat, id: string, path: Path,
                     f: Fields)
    requires IsJson(c) && LoadManifest(c, disk, p.Manifest()) == Ok(Document(obj, tickets))
    requires FindEntry(tickets, id) == Some(i)
    requires ReadContentPath(c, p, tickets[i], id) == Some(path) && SuffixOf(path) == ".json"
    requires id != "" && Render(id, f).Some? && Opened(disk, path) == Some(Text(c.dumps(Render(id, f).value)))
    ensures GetTicket(c, p, disk, id) ==
      if ReadableThrough(tickets, i) then Ok(Some(StubOf(tickets[i]).value.(content := Some(Normal(f)))))
      else Fail(MalformedManifest)
  {
    FindStubAt(tickets, id, i, 0);
    ContentReadsBack(c, id, f);
  }

  lemma ContentReadsBack(c: Codec, id: string, f: Fields)
    requires IsJson(c) && id != "" && Render(id, f).Some?
    ensures ContentOf(c, id, c.dumps(Render(id, f).value)) == Some(Normal(f))
  {
    RenderReadsBack(id, f);
    DocumentIsWellFormed(id, f);
    assert c.loads(c.dumps(Render(id, f).value)) == Some(Render(id, f).value);
  }

  lemma DocumentIsWellFormed(id: string, f: Fields)
    ensures WellFormed(Obj(DocumentOf(id, f)))
  {
    var d, v := DocumentOf(id, f), VerificationOf(f);
    assert "critical_files"[0] != "interface_data"[0];
    assert WellFormed(Obj(v));
    assert IsDict(d);
    forall i | 0 <= i < |d| ensures WellFormed(d[i].1) {
      assert i == 0 || i == 1 || i == 2 || i == 3 || i == 4 || i == 5;
    }
  }

  /** The reader can stream to the edited entry. */
  predicate ReadableOnceEdited(tickets: seq<Dict>, i: nat) {
    i < |tickets| && (forall k :: 0 <= k < i ==> StubOf(tickets[k]).Some?) && IsEditable(tickets[i])
  }

  lemma EditedAreReadable(x: EditPlan, e: Edit)
    requires x.index < |x.document.tickets|
    requires
      var entry := x.document.tickets[x.index];
      IsDict(entry) && EntryId(entry).Some? && MatchesIdPattern(EntryId(entry).value)
    ensures ReadableThrough(EditedTickets(x, e), x.index) <==> ReadableOnceEdited(x.document.tickets, x.index)
  {
    MergedStub(x.document.tickets[x.index], e);
    var before, after := x.document.tickets, EditedTickets(x, e);
    assert after[x.index] == MergeEdit(before[x.index], e);
    forall k | 0 <= k < x.index ensures StubOf(after[k]) == StubOf(before[k]) {
      assert after[k] == before[k];
    }
  }

  /** The whole answer of an edit the run state permits and the renderer plans. It reads back
      as the edit, through the reader's own way to the file, exactly when the guard lets the
      declared file be written, that file is not the manifest itself, and the reader can
      stream to the entry. An unsafe path touches nothing; in the two remaining cases the
      write has happened and the reader then refuses the manifest. */
  lemma EditReadsBack(c: Codec, p: Project, disk: Disk, state: RunStates.RunState, id: string, e: Edit)
    requires IsJson(c) && IsDiscovered(p) && RenderEdit(c, p, disk, id, e).Ok? && state in Gate.MUTABLE_STATES
    ensures
      var tickets := LoadManifest(c, disk, p.Manifest()).value.tickets;
      var i := FindEntry(tickets, id).value;
      var path := EntryContentPath(c, p, tickets[i], id).value;
      EditOutcome(c, p, disk, state, id, e) ==
        if !IsSafeTarget(p, path) then Outcome(disk, Fail(PathTraversal))
        else Outcome(After(disk, RenderEdit(c, p, disk, id, e).value),
                     if path != p.Manifest() && ReadableOnceEdited(tickets, i)
                     then Ok(EditedTicket(id, StatusOf(tickets[i]), e))
                     else Fail(MalformedManifest))
  {
    var x := EditPlanOf(c, p, disk, id, e);
    EditApplies(c, p, disk, id, e, x);
    OutcomeOfEdit(c, p, disk, state, id, e, PlanOfEdit(c, p, disk, id, e, x));
    if x.path != p.Manifest() {
      EditReadsBackFromFile(c, p, disk, id, e, x);
    } else {
      EditOverManifest(c, p, disk, id, e, x);
    }
  }

  lemma OutcomeOfEdit(c: Codec, p: Project, disk: Disk, state: RunStates.RunState, id: string, e: Edit, plan: Plan)
    requires state in Gate.MUTABLE_STATES && RenderEdit(c, p, disk, id, e) == Ok(plan)
    ensures EditOutcome(c, p, disk, state, id, e) == ApplyThenReread(c, p, disk, plan, id)
  {
  }

  /** The renderer read the files it changes, so nothing is in the way of its plan. */
  lemma EditIsClear(c: Codec, p: Project, disk: Disk, id: string, e: Edit, x: EditPlan)
    requires IsEditPlan(c, p, disk, id, e, x)
    ensures AtomicLaws.IsClear(disk, PlanOfEdit(c, p, disk, id, e, x))
  {
    ReadIsOpen(disk, p.Manifest());
    RoadmapChangeIsOpen(p, disk, EditInRoadmap(id, e));
    PlanIsClear(p, disk, c.dumps(Obj(EditedObject(x, e))), x.path, Some(c.dumps(x.content)),
                RoadmapChange(p.roadmap, RoadmapText(p, disk), EditInRoadmap(id, e)));
  }

  /** An edit's plan passes the guard exactly when its content file does, and is in order. */
  lemma EditApplies(c: Codec, p: Project, disk: Disk, id: string, e: Edit, x: EditPlan)
    requires IsDiscovered(p) && IsEditPlan(c, p, disk, id, e, x)
    ensures
      var plan := PlanOfEdit(c, p, disk, id, e, x);
      Apply(p, disk, plan) == if IsSafeTarget(p, x.path) then Done(After(disk, plan)) else Refused
  {
    var roadmap := RoadmapChange(p.roadmap, RoadmapText(p, disk), EditInRoadmap(id, e));
    RoadmapChangeIs(p, RoadmapText(p, disk), EditInRoadmap(id, e));
    EditIsClear(c, p, disk, id, e, x);
    AtomicLaws.ClearGoesIn(disk, PlanOfEdit(c, p, disk, id, e, x));
    PlanIsSafe(p, c.dumps(Obj(EditedObject(x, e))), x.path, Some(c.dumps(x.content)), roadmap);
    PlanIsInOrder(p, c.dumps(Obj(EditedObject(x, e))), x.path, Some(c.dumps(x.content)), roadmap);
  }

  lemma EditReadsBackFromFile(c: Codec, p: Project, disk: Disk, id: string, e: Edit, x: EditPlan)
    requires IsJson(c) && IsDiscovered(p) && IsEditPlan(c, p, disk, id, e, x) && x.path != p.Manifest()
    ensures GetTicket(c, p, After(disk, PlanOfEdit(c, p, disk, id, e, x)), id) ==
      if ReadableOnceEdited(x.document.tickets, x.index)
      then Ok(Some(EditedTicket(id, StatusOf(x.document.tickets[x.index]), e)))
      else Fail(MalformedManifest)
  {
    var after := After(disk, PlanOfEdit(c, p, disk, id, e, x));
    EditLands(c, p, disk, id, e, x);
    EditedManifest(c, p, disk, after, id, e, x);
    EditedTicketIsRead(c, p, disk, after, id, e, x);
  }

  /** The manifest and the content file after an edit. */
  lemma EditLands(c: Codec, p: Project, disk: Disk, id: string, e: Edit, x: EditPlan)
    requires IsJson(c) && IsDiscovered(p) && IsEditPlan(c, p, disk, id, e, x) && x.path != p.Manifest()
    ensures
      var after := After(disk, PlanOfEdit(c, p, disk, id, e, x));
      && Opened(after, p.Manifest()) == Some(Text(c.dumps(Obj(EditedObject(x, e)))))
      && Opened(after, x.path) == Some(Text(c.dumps(x.content)))
  {
    EditIsClear(c, p, disk, id, e, x);
    var text, content := c.dumps(Obj(EditedObject(x, e))), c.dumps(x.content);
    var roadmap := RoadmapChange(p.roadmap, RoadmapText(p, disk), EditInRoadmap(id, e));
    RoadmapChangeIs(p, RoadmapText(p, disk), EditInRoadmap(id, e));
    if p.roadmap.Some? {
      RoadmapIsNoContent(p, x.path);
    }
    PlanLands(p, disk, text, x.path, Some(content), roadmap);
    PlanIsRead(p, disk, text, x.path, Some(content), roadmap);
  }

  lemma EditedTicketIsRead(c: Codec, p: Project, disk: Disk, after: Disk, id: string, e: Edit, x: EditPlan)
    requires IsJson(c) && IsDiscovered(p) && IsEditPlan(c, p, disk, id, e, x)
    requires LoadManifest(c, after, p.Manifest()) == Ok(Document(EditedObject(x, e), EditedTickets(x, e)))
    requires FindEntry(EditedTickets(x, e), id) == Some(x.index)
    requires Opened(after, x.path) == Some(Text(c.dumps(x.content)))
    ensures GetTicket(c, p, after, id) ==
      if ReadableOnceEdited(x.document.tickets, x.index)
      then Ok(Some(EditedTicket(id, StatusOf(x.document.tickets[x.index]), e)))
      else Fail(MalformedManifest)
  {
    var entry := x.document.tickets[x.index];
    LoadedIsWellFormed(c, disk, p.Manifest());
    EditedAreReadable(x, e);
    MergedStub(entry, e);
    MergedResolvesAlike(c, p, entry, e, id);
    ReadAndWriteResolveAlike(c, p, entry, id);
    TicketIsRead(c, p, after, EditedTickets(x, e), EditedObject(x, e), x.index, id, x.path, e.fields);
  }

  /** An entry that declares the manifest as its content file: the edit replaces the manifest
      by the content document, and nothing can be read any more. */
  lemma EditOverManifest(c: Codec, p: Project, disk: Disk, id: string, e: Edit, x: EditPlan)
    requires IsJson(c) && IsDiscovered(p) && IsEditPlan(c, p, disk, id, e, x) && x.path == p.Manifest()
    ensures GetTicket(c, p, After(disk, PlanOfEdit(c, p, disk, id, e, x)), id) == Fail(MalformedManifest)
  {
    RoadmapChangeIs(p, RoadmapText(p, disk), EditInRoadmap(id, e));
    EditIsClear(c, p, disk, id, e, x);
    OverManifestLands(p, disk, c.dumps(Obj(EditedObject(x, e))), c.dumps(x.content),
                      RoadmapChange(p.roadmap, RoadmapText(p, disk), EditInRoadmap(id, e)));
    ContentIsNoManifest(c, id, e.fields);
  }

  lemma OverManifestLands(p: Project, disk: Disk, text: string, content: string, roadmap: Plan)
    requires IsDiscovered(p) && IsRoadmapChange(p, roadmap) && '\r' !in content
    requires AtomicLaws.IsClear(disk, ThreeFiles(p, text, p.Manifest(), Some(content), roadmap))
    ensures Opened(After(disk, ThreeFiles(p, text, p.Manifest(), Some(content), roadmap)), p.Manifest())
            == Some(Text(content))
  {
    var plan := ThreeFiles(p, text, p.Manifest(), Some(content), roadmap);
    if p.roadmap.Some? {
      RoadmapIsNoContent(p, p.Manifest());
    }
    assert plan[..|plan|] == plan;
    AtomicLaws.AfterHolds(disk, plan, |plan|, 1);
    AtomicLaws.ClearStays(disk, plan, |plan|, 0);
    OpenedIs(After(disk, plan), p.Manifest(), Some(content));
  }

  lemma ContentIsNoManifest(c: Codec, id: string, f: Fields)
    requires IsJson(c) && Render(id, f).Some?
    ensures ParseManifest(c, c.dumps(Render(id, f).value)) == None
  {
    DocumentIsWellFormed(id, f);
    assert c.loads(c.dumps(Render(id, f).value)) == Some(Render(id, f).value);
    ContentHasNoTickets(id, f);
  }

  lemma ContentHasNoTickets(id: string, f: Fields)
    ensures Get(DocumentOf(id, f), "tickets") == None
  {
    DocumentKeys(id, f);
    HasIs(DocumentOf(id, f), "tickets");
  }

  /** An edit that goes to disk replaces one entry; every other entry, in order, and every
      other key of the manifest stay as they were. */
  lemma EditKeepsOtherEntries(c: Codec, p: Project, disk: Disk, state: RunStates.RunState, id: string, e: Edit)
    requires IsJson(c) && IsDiscovered(p) && RenderEdit(c, p, disk, id, e).Ok? && state in Gate.MUTABLE_STATES
    requires
      var tickets := LoadManifest(c, disk, p.Manifest()).value.tickets;
      var path := EntryContentPath(c, p, tickets[FindEntry(tickets, id).value], id).value;
      path != p.Manifest() && IsSafeTarget(p, path)
    ensures
      var before := LoadManifest(c, disk, p.Manifest()).value;
      var i := FindEntry(before.tickets, id).value;
      var after := LoadManifest(c, EditOutcome(c, p, disk, state, id, e).disk, p.Manifest());
      && after.Ok? && after.value.tickets == before.tickets[i := MergeEdit(before.tickets[i], e)]
      && forall key :: key != "tickets" ==> Get(after.value.obj, key) == Get(before.obj, key)
  {
    var x := EditPlanOf(c, p, disk, id, e);
    EditApplies(c, p, disk, id, e, x);
    OutcomeOfEdit(c, p, disk, state, id, e, PlanOfEdit(c, p, disk, id, e, x));
    EditLands(c, p, disk, id, e, x);
    EditedManifest(c, p, disk, After(disk, PlanOfEdit(c, p, disk, id, e, x)), id, e, x);
    forall key: string | key != "tickets" ensures Get(EditedObject(x, e), key) == Get(x.document.obj, key) {
      GetPut(x.document.obj, "tickets", Arr(Objects(EditedTickets(x, e))), key);
    }
  }

  /** And no edit, refused or not, touches any file but the manifest, the file the entry
      declares and the roadmap. */
  lemma EditKeepsOtherFiles(c: Codec, p: Project, disk: Disk, state: RunStates.RunState, id: string, e: Edit,
                            other: Path)
    requires IsDiscovered(p) && other != p.Manifest() && p.roadmap != Some(other)
    requires RenderEdit(c, p, disk, id, e).Ok? ==>
      var tickets := LoadManifest(c, disk, p.Manifest()).value.tickets;
      EntryContentPath(c, p, tickets[FindEntry(tickets, id).value], id) != Some(other)
    ensures FileAt(EditOutcome(c, p, disk, state, id, e).disk, other) == FileAt(disk, other)
  {
    if state in Gate.MUTABLE_STATES && RenderEdit(c, p, disk, id, e).Ok? {
      var x := EditPlanOf(c, p, disk, id, e);
      EditApplies(c, p, disk, id, e, x);
      OutcomeOfEdit(c, p, disk, state, id, e, PlanOfEdit(c, p, disk, id, e, x));
      RoadmapChangeIs(p, RoadmapText(p, disk), EditInRoadmap(id, e));
      PlanKeepsOthers(p, disk, c.dumps(Obj(EditedObject(x, e))), x.path, Some(c.dumps(x.content)),
                      RoadmapChange(p.roadmap, RoadmapText(p, disk), EditInRoadmap(id, e)), other);
    }
  }

  // ---- Entries that declare a file of somebody else's ----------------------------------

  lemma DeclaredBelowRoot(c: Codec, p: Project, entry: Dict, id: string, below: seq<string>)
    requires IsJson(c) && IsSafeSegment(id) && below != [] && AllPlain(below)
    requires Get(entry, "path") == Some(Str(RelPosix(below)))
    ensures EntryContentPath(c, p, entry, id) == Some(p.root + below)
  {
    assert IsPlain(below[0]);
    RelPosixReadsBack(p.root, below);
  }

  lemma JoinTwo(a: string, b: string)
    ensures RelPosix([a, b]) == a + "/" + b
  {
    assert [a, b][1..] == [b] && "/" == ['/'];
    assert Join([b], '/') == b;
  }

  lemma JoinThree(a: string, b: string, c: string)
    ensures RelPosix([a, b, c]) == a + "/" + (b + "/" + c)
  {
    assert [a, b, c][1..] == [b, c] && "/" == ['/'];
    JoinTwo(b, c);
  }

  function ManifestBelow(): seq<string> { ["docs", "planning", "tickets.json"] }

  function RunStateBelow(): seq<string> { [".factory", "run-state.json"] }

  /** How an entry spells them. */
  lemma ManifestText()
    ensures RelPosix(ManifestBelow()) == "docs/planning/tickets.json"
  {
    JoinThree("docs", "planning", "tickets.json");
    assert "docs" + "/" + ("planning" + "/" + "tickets.json") == "docs/planning/tickets.json";
  }

  lemma RunStateText()
    ensures RelPosix(RunStateBelow()) == ".factory/run-state.json"
  {
    JoinTwo(".factory", "run-state.json");
    assert ".factory" + "/" + "run-state.json" == ".factory/run-state.json";
  }

  lemma ManifestIsWritable(root: Path)
    ensures AllPlain(ManifestBelow()) && FormatError(root + ManifestBelow()) == None
  {
    assert IsPlain("docs") && IsPlain("planning") && IsPlain("tickets.json");
    JsonSuffix(root + ManifestBelow(), "tickets");
  }

  lemma RunStateIsWritable(root: Path)
    ensures AllPlain(RunStateBelow()) && FormatError(root + RunStateBelow()) == None
  {
    assert IsPlain(".factory") && IsPlain("run-state.json");
    JsonSuffix(root + RunStateBelow(), "run-state");
  }

  lemma ManifestIsDeclared(c: Codec, p: Project, entry: Dict, id: string)
    requires IsJson(c) && IsDiscovered(p) && IsSafeSegment(id)
    requires Get(entry, "path") == Some(Str(RelPosix(ManifestBelow())))
    ensures EntryContentPath(c, p, entry, id) == Some(p.Manifest())
    ensures FormatError(p.Manifest()) == None && IsSafeTarget(p, p.Manifest())
  {
    ManifestIsWritable(p.root);
    DeclaredBelowRoot(c, p, entry, id, ManifestBelow());
    ManifestIsSafe(p);
  }

  /** An entry can declare the manifest as its content file: it resolves, and passes the
      format check and the guard. */
  lemma ManifestCanBeDeclared(c: Codec, p: Project, entry: Dict, id: string)
    requires IsJson(c) && IsDiscovered(p) && IsSafeSegment(id)
    requires Get(entry, "path") == Some(Str("docs/planning/tickets.json"))
    ensures EntryContentPath(c, p, entry, id) == Some(p.Manifest())
    ensures FormatError(p.Manifest()) == None && IsSafeTarget(p, p.Manifest())
  {
    ManifestText();
    ManifestIsDeclared(c, p, entry, id);
  }

  lemma RunStateIsDeclared(c: Codec, p: Project, entry: Dict, id: string)
    requires IsJson(c) && IsDiscovered(p) && IsSafeSegment(id)
    requires Get(entry, "path") == Some(Str(RelPosix(RunStateBelow())))
    ensures
      var path := p.root + RunStateBelow();
      && EntryContentPath(c, p, entry, id) == Some(path)
      && FormatError(path) == None && path != p.Manifest() && !IsSafeTarget(p, path)
  {
    RunStateIsWritable(p.root);
    DeclaredBelowRoot(c, p, entry, id, RunStateBelow());
    RunStateIsUnsafe(p);
  }

  /** An entry can declare the factory's run state as its content file: it resolves, passes
      the format check, and only the guard refuses it. */
  lemma RunStateCanBeDeclared(c: Codec, p: Project, entry: Dict, id: string)
    requires IsJson(c) && IsDiscovered(p) && IsSafeSegment(id)
    requires Get(entry, "path") == Some(Str(".factory/run-state.json"))
    ensures
      var path := p.root + RunStateBelow();
      && EntryContentPath(c, p, entry, id) == Some(path)
      && FormatError(path) == None && path != p.Manifest() && !IsSafeTarget(p, path)
  {
    RunStateText();
    RunStateIsDeclared(c, p, entry, id);
  }

  lemma RunStateIsUnsafe(p: Project)
    ensures !IsSafeTarget(p, p.root + RunStateBelow())
    ensures p.root + RunStateBelow() != p.Manifest()
  {
    var path := p.root + RunStateBelow();
    assert RunStates.RUN_STATE_SOURCE_LOCATIONS[0].path == RunStateBelow();
    assert IsForbidden(p, path);
    assert path in Forbidden(p) && IsWithin(path, path);
    assert |path| != |p.Manifest()|;
  }
}
