/** Creating a ticket, deleting one, and deleting what was created. */
module CreateLaws {
  import opened Common
  import opened Json
  import opened Lines
  import opened Paths
  import opened Project
  import opened TicketIds
  import opened TicketJson
  import opened Manifest
  import opened TicketReader
  import opened WriteRender
  import opened EntryLaws
  import opened AtomicWrite
  import opened PlanLaws
  import opened WriterLaws
  import opened RealWriter
  import RoadmapLaws
  import RoadmapOnDisk
  import Newlines
  import AtomicLaws
  import RunStates
  import Gate = RunStateGate

  // ---- The created entry --------------------------------------------------------------

  function FlatText(id: string): string { RelPosix(FlatBelow(id)) }

  function CreatedEntry(d: Draft): Dict { DraftEntry(d, FlatText(d.id)) }

  function DraftBase(d: Draft): Dict {
    [("id", Str(d.id)),
     ("title", Str(d.edit.title)),
     ("status", Str("todo")),
     ("track", OrNull(d.edit.track)),
     ("milestone", OrNull(d.edit.milestone)),
     ("provides", Str(d.edit.provided)),
     ("path", Str(FlatText(d.id)))]
  }

  ghost predicate HoldsDraft(base: Dict, d: Draft) {
    && Get(base, "id") == Some(Str(d.id)) && Get(base, "title") == Some(Str(d.edit.title))
    && Get(base, "status") == Some(Str("todo")) && Get(base, "track") == Some(OrNull(d.edit.track))
    && Get(base, "milestone") == Some(OrNull(d.edit.milestone))
    && Get(base, "provides") == Some(Str(d.edit.provided))
    && Get(base, "path") == Some(Str(FlatText(d.id)))
  }

  lemma DraftBaseIsDict(d: Draft)
    ensures IsDict(DraftBase(d))
    ensures !Has(DraftBase(d), "files") && !Has(DraftBase(d), "depends_on") && !Has(DraftBase(d), "dependsOn")
  {
    HasIs(DraftBase(d), "files");
    HasIs(DraftBase(d), "depends_on");
    HasIs(DraftBase(d), "dependsOn");
  }

  lemma DraftBaseGets(d: Draft)
    ensures HoldsDraft(DraftBase(d), d)
  {
    var base := DraftBase(d);
    DraftBaseIsDict(d);
    GetAt(base, 0);
    GetAt(base, 1);
    GetAt(base, 2);
    GetAt(base, 3);
    GetAt(base, 4);
    GetAt(base, 5);
    GetAt(base, 6);
  }

  /** Storing dependencies changes nothing else a stub is read from. */
  lemma StubOfWritten(base: Dict, dependsOn: seq<string>)
    requires IsDict(base) && !Has(base, "files")
    ensures EntryId(WithDependsOn(base, dependsOn)) == EntryId(base)
    ensures Get(WithDependsOn(base, dependsOn), "path") == Get(base, "path")
    ensures StubOf(WithDependsOn(base, dependsOn))
            == StubFrom(EntryId(base), Get(base, "title"), Get(base, "status"), Get(base, "track"),
                        Get(base, "milestone"), Some(dependsOn), Get(base, "provides"))
  {
    DependsOnReadsBack(base, dependsOn);
    DependsOnIsWritten(base, dependsOn, "id");
    DependsOnIsWritten(base, dependsOn, "title");
    DependsOnIsWritten(base, dependsOn, "status");
    DependsOnIsWritten(base, dependsOn, "track");
    DependsOnIsWritten(base, dependsOn, "milestone");
    DependsOnIsWritten(base, dependsOn, "provides");
    DependsOnIsWritten(base, dependsOn, "path");
    DependsOnIsWritten(base, dependsOn, "files");
  }

  /** A created entry is read as the draft, and declares the file the create wrote. */
  lemma CreatedEntryIs(d: Draft)
    requires MatchesIdPattern(d.id)
    ensures WellFormedDict(CreatedEntry(d)) && EntryId(CreatedEntry(d)) == Some(d.id)
    ensures Get(CreatedEntry(d), "path") == Some(Str(FlatText(d.id)))
    ensures StubOf(CreatedEntry(d)) == Some(CreatedTicket(d).(content := None))
  {
    DraftBaseIsDict(d);
    DraftBaseGets(d);
    EntryFromBase(DraftBase(d), d);
  }

  lemma EntryFromBase(base: Dict, d: Draft)
    requires MatchesIdPattern(d.id) && WellFormedDict(base) && HoldsDraft(base, d) && !Has(base, "files")
    ensures
      var entry := WithDependsOn(base, d.edit.dependsOn);
      && WellFormedDict(entry) && EntryId(entry) == Some(d.id) && Get(entry, "path") == Some(Str(FlatText(d.id)))
      && StubOf(entry) == Some(CreatedTicket(d).(content := None))
  {
    WithDependsOnIsWellFormed(base, d.edit.dependsOn);
    StubOfWritten(base, d.edit.dependsOn);
  }

  /** An entry that declares its flat path resolves to it. */
  lemma FlatEntryResolves(c: Codec, p: Project, entry: Dict, id: string)
    requires IsJson(c) && IsDiscovered(p) && IsSafeSegment(id) && Get(entry, "path") == Some(Str(FlatText(id)))
    ensures DeclaredPath(c, entry) == Some(ParsePath(FlatText(id)))
    ensures EntryContentPath(c, p, entry, id) == Some(FlatPath(p, id))
    ensures ReadContentPath(c, p, entry, id) == Some(FlatPath(p, id))
  {
    FlatResolves(c, p, id);
    ReadAndWriteResolveAlike(c, p, entry, id);
  }

  // ---- Creating -----------------------------------------------------------------------

  lemma FlatIsApart(p: Project, id: string)
    requires IsDiscovered(p) && id != ""
    ensures FlatPath(p, id) != p.Manifest() && p.roadmap != Some(FlatPath(p, id))
    ensures SuffixOf(FlatPath(p, id)) == ".json"
  {
    FlatHasSuffix(p, id);
    if p.roadmap.Some? {
      RoadmapIsNoContent(p, FlatPath(p, id));
    }
    assert |FlatPath(p, id)| == |p.Manifest()| + 1;
  }

  /** A plan over the three known files passes the guard and is in order. */
  lemma FlatPlanIsOrdered(p: Project, text: string, id: string, content: Option<string>, roadmap: Plan)
    requires IsDiscovered(p) && IsRoadmapChange(p, roadmap) && id != ""
    ensures
      var plan := ThreeFiles(p, text, FlatPath(p, id), content, roadmap);
      AllSafe(p, plan) && Ordered(p, plan) == plan
  {
    FlatIsSafe(p, id);
    PlanIsSafe(p, text, FlatPath(p, id), content, roadmap);
    PlanIsInOrder(p, text, FlatPath(p, id), content, roadmap);
  }

  lemma AppendedManifest(c: Codec, p: Project, after: Disk, obj: Dict, tickets: seq<Dict>, entry: Dict, id: string)
    requires IsJson(c) && WellFormedDict(obj) && UniqueIds(tickets) && WellFormedDict(entry)
    requires forall k :: 0 <= k < |tickets| ==> WellFormedDict(tickets[k])
    requires EntryId(entry) == Some(id) && FindEntry(tickets, id) == None
    requires Opened(after, p.Manifest()) == FileOf(ManifestChange(c, p, obj, tickets + [entry]).newText)
    ensures LoadManifest(c, after, p.Manifest())
            == Ok(Document(Put(obj, "tickets", Arr(Objects(tickets + [entry]))), tickets + [entry]))
    ensures FindEntry(tickets + [entry], id) == Some(|tickets|)
  {
    ManifestReadsBack(c, p, after, obj, tickets + [entry]);
    FindEntryIs(tickets + [entry], id, |tickets|);
  }

  lemma WithoutIsPart<T>(items: seq<T>, i: nat, k: nat)
    requires i < |items| && k < |Without(items, i)|
    ensures Without(items, i)[k] == items[if k < i then k else k + 1]
  {
  }

  /** Taking an entry out repeats no id and brings in nothing new. */
  lemma DroppedAreWellFormed(tickets: seq<Dict>, i: nat, left: seq<Dict>)
    requires i < |tickets| && left == Without(tickets, i) && UniqueIds(tickets)
    requires forall k :: 0 <= k < |tickets| ==> WellFormedDict(tickets[k])
    ensures UniqueIds(left) && forall k :: 0 <= k < |left| ==> WellFormedDict(left[k])
  {
    forall k | 0 <= k < |left| ensures left[k] == tickets[if k < i then k else k + 1] {
      WithoutIsPart(tickets, i, k);
    }
  }

  lemma DroppedManifest(c: Codec, p: Project, after: Disk, obj: Dict, tickets: seq<Dict>, i: nat)
    requires IsJson(c) && WellFormedDict(obj) && UniqueIds(tickets) && i < |tickets|
    requires forall k :: 0 <= k < |tickets| ==> WellFormedDict(tickets[k])
    requires Opened(after, p.Manifest()) == FileOf(ManifestChange(c, p, obj, Without(tickets, i)).newText)
    ensures LoadManifest(c, after, p.Manifest())
            == Ok(Document(Put(obj, "tickets", Arr(Objects(Without(tickets, i)))), Without(tickets, i)))
  {
    var left := Without(tickets, i);
    DroppedAreWellFormed(tickets, i, left);
    ManifestReadsBack(c, p, after, obj, left);
  }

  /** The parts of a successful create. */
  function CreatePlan(c: Codec, p: Project, disk: Disk, document: Document, d: Draft, content: Value): Plan {
    ThreeFiles(p, c.dumps(Obj(CreatedObject(document, d))), FlatPath(p, d.id), Some(c.dumps(content)),
               RoadmapChange(p.roadmap, RoadmapText(p, disk), CreateInRoadmap(d)))
  }

  function CreatedTickets(document: Document, d: Draft): seq<Dict> { document.tickets + [CreatedEntry(d)] }

  function CreatedObject(document: Document, d: Draft): Dict {
    Put(document.obj, "tickets", Arr(Objects(CreatedTickets(document, d))))
  }

  /** When a create is planned, and what it plans. */
  lemma CreatePlanOf(c: Codec, p: Project, disk: Disk, d: Draft, document: Document)
    requires IsDiscovered(p) && IsSafeSegment(d.id) && LoadManifest(c, disk, p.Manifest()) == Ok(document)
    ensures RenderCreate(c, p, disk, d) ==
      if FindEntry(document.tickets, d.id).Some? then Fail(TicketAlreadyExists)
      else if Render(d.id, d.edit.fields).None? then Fail(TicketInvalid)
      else Ok(CreatePlan(c, p, disk, document, d, Render(d.id, d.edit.fields).value))
  {
    FlatResolves(c, p, d.id);
  }

  lemma CreateIsClear(c: Codec, p: Project, disk: Disk, document: Document, d: Draft, content: Value)
    requires LoadManifest(c, disk, p.Manifest()).Ok? && !IsObstructed(disk, FlatPath(p, d.id))
    ensures AtomicLaws.IsClear(disk, CreatePlan(c, p, disk, document, d, content))
  {
    ReadIsOpen(disk, p.Manifest());
    RoadmapChangeIsOpen(p, disk, CreateInRoadmap(d));
    PlanIsClear(p, disk, c.dumps(Obj(CreatedObject(document, d))), FlatPath(p, d.id), Some(c.dumps(content)),
                RoadmapChange(p.roadmap, RoadmapText(p, disk), CreateInRoadmap(d)));
  }

  /** After a create: the entry stands last in the manifest, and its file holds the fields. */
  lemma CreateLands(c: Codec, p: Project, disk: Disk, d: Draft, document: Document, content: Value)
    requires IsJson(c) && IsDiscovered(p) && IsSafeSegment(d.id) && LoadManifest(c, disk, p.Manifest()) == Ok(document)
    requires FindEntry(document.tickets, d.id).None? && !IsObstructed(disk, FlatPath(p, d.id))
    ensures
      var after := After(disk, CreatePlan(c, p, disk, document, d, content));
      && LoadManifest(c, after, p.Manifest()) == Ok(Document(CreatedObject(document, d), CreatedTickets(document, d)))
      && FindEntry(CreatedTickets(document, d), d.id) == Some(|document.tickets|)
      && Opened(after, FlatPath(p, d.id)) == Some(Text(c.dumps(content)))
  {
    var after := After(disk, CreatePlan(c, p, disk, document, d, content));
    var text, roadmap := c.dumps(Obj(CreatedObject(document, d))),
                         RoadmapChange(p.roadmap, RoadmapText(p, disk), CreateInRoadmap(d));
    FlatIsApart(p, d.id);
    RoadmapChangeIs(p, RoadmapText(p, disk), CreateInRoadmap(d));
    CreateIsClear(c, p, disk, document, d, content);
    PlanLands(p, disk, text, FlatPath(p, d.id), Some(c.dumps(content)), roadmap);
    PlanIsRead(p, disk, text, FlatPath(p, d.id), Some(c.dumps(content)), roadmap);
    LoadedIsWellFormed(c, disk, p.Manifest());
    CreatedEntryIs(d);
    AppendedManifest(c, p, after, document.obj, document.tickets, CreatedEntry(d), d.id);
  }

  /** The ticket a draft asks for. */
  function CreatedTicket(d: Draft): Ticket {
    Ticket(d.id, d.edit.title, "todo", d.edit.track, d.edit.milestone, d.edit.dependsOn,
           ProvidedOf(d.edit.provided), Some(Normal(d.edit.fields)))
  }

  /** The whole outcome of a planned create. With something in the way of the content file the
      manifest is already written when the write stops. Otherwise it lands, and reads back as
      the draft exactly when the reader can stream past every older entry. */
  lemma CreateReadsBack(c: Codec, p: Project, disk: Disk, d: Draft, document: Document)
    requires IsJson(c) && IsDiscovered(p) && IsSafeSegment(d.id) && LoadManifest(c, disk, p.Manifest()) == Ok(document)
    requires FindEntry(document.tickets, d.id).None? && Render(d.id, d.edit.fields).Some?
    ensures CreateOutcome(c, p, disk, d) ==
      if IsObstructed(disk, FlatPath(p, d.id)) then
        Outcome(disk[p.Manifest() := Text(c.dumps(Obj(CreatedObject(document, d))))], Fail(AtomicWriteFailed))
      else
        Outcome(After(disk, CreatePlan(c, p, disk, document, d, Render(d.id, d.edit.fields).value)),
                if AllReadable(document.tickets) then Ok(CreatedTicket(d)) else Fail(MalformedManifest))
  {
    var content := Render(d.id, d.edit.fields).value;
    CreatePlanOf(c, p, disk, d, document);
    OutcomeOfCreate(c, p, disk, d, CreatePlan(c, p, disk, document, d, content));
    if IsObstructed(disk, FlatPath(p, d.id)) {
      CreateStops(c, p, disk, d, document, content);
    } else {
      CreateApplies(c, p, disk, d, document, content);
      CreatedTicketIsRead(c, p, disk, d, document);
    }
  }

  lemma OutcomeOfCreate(c: Codec, p: Project, disk: Disk, d: Draft, plan: Plan)
    requires RenderCreate(c, p, disk, d) == Ok(plan)
    ensures CreateOutcome(c, p, disk, d) == ApplyThenReread(c, p, disk, plan, d.id)
  {
  }

  lemma CreateApplies(c: Codec, p: Project, disk: Disk, d: Draft, document: Document, content: Value)
    requires IsDiscovered(p) && d.id != "" && LoadManifest(c, disk, p.Manifest()).Ok?
    requires !IsObstructed(disk, FlatPath(p, d.id))
    ensures Apply(p, disk, CreatePlan(c, p, disk, document, d, content))
            == Done(After(disk, CreatePlan(c, p, disk, document, d, content)))
  {
    RoadmapChangeIs(p, RoadmapText(p, disk), CreateInRoadmap(d));
    FlatPlanIsOrdered(p, c.dumps(Obj(CreatedObject(document, d))), d.id, Some(c.dumps(content)),
                      RoadmapChange(p.roadmap, RoadmapText(p, disk), CreateInRoadmap(d)));
    CreateIsClear(c, p, disk, document, d, content);
    AtomicLaws.ClearGoesIn(disk, CreatePlan(c, p, disk, document, d, content));
  }

  lemma CreateStops(c: Codec, p: Project, disk: Disk, d: Draft, document: Document, content: Value)
    requires IsDiscovered(p) && d.id != "" && LoadManifest(c, disk, p.Manifest()).Ok?
    requires IsObstructed(disk, FlatPath(p, d.id))
    ensures Apply(p, disk, CreatePlan(c, p, disk, document, d, content))
            == Stopped(disk[p.Manifest() := Text(c.dumps(Obj(CreatedObject(document, d))))])
  {
    var plan := CreatePlan(c, p, disk, document, d, content);
    RoadmapChangeIs(p, RoadmapText(p, disk), CreateInRoadmap(d));
    FlatPlanIsOrdered(p, c.dumps(Obj(CreatedObject(document, d))), d.id, Some(c.dumps(content)),
                      RoadmapChange(p.roadmap, RoadmapText(p, disk), CreateInRoadmap(d)));
    ReadIsOpen(disk, p.Manifest());
    StopsAtSecond(disk, plan);
  }

  /** A first change over a file that is there leaves whatever is in the way of the second. */
  lemma StopsAtSecond(disk: Disk, plan: Plan)
    requires |plan| > 1 && plan[0].newText.Some? && IsOpen(disk, plan[0].path) && IsObstructed(disk, plan[1].path)
    ensures FirstObstructed(disk, plan) == Some(1)
    ensures After(disk, plan[..1]) == disk[plan[0].path := Text(plan[0].newText.value)]
  {
    assert plan[..0] == [] && After(disk, plan[..0]) == disk;
    AfterStep(disk, plan, 0);
    var after := After(disk, plan[..1]);
    assert forall q :: q in after <==> q in disk;
    assert GoesIn(disk, plan, 0) && !GoesIn(disk, plan, 1);
  }

  /** What a create that went through tells of the disk it started from. */
  lemma WentThrough(c: Codec, p: Project, disk: Disk, d: Draft) returns (document: Document)
    requires IsJson(c) && IsDiscovered(p) && CreateOutcome(c, p, disk, d).answer.Ok?
    ensures IsSafeSegment(d.id) && LoadManifest(c, disk, p.Manifest()) == Ok(document)
    ensures FindEntry(document.tickets, d.id).None? && Render(d.id, d.edit.fields).Some?
    ensures AllReadable(document.tickets) && !IsObstructed(disk, FlatPath(p, d.id))
  {
    document := LoadManifest(c, disk, p.Manifest()).value;
    CreatePlanOf(c, p, disk, d, document);
    CreateReadsBack(c, p, disk, d, document);
  }

  lemma CreatedTicketIsRead(c: Codec, p: Project, disk: Disk, d: Draft, document: Document)
    requires IsJson(c) && IsDiscovered(p) && IsSafeSegment(d.id) && LoadManifest(c, disk, p.Manifest()) == Ok(document)
    requires FindEntry(document.tickets, d.id).None? && Render(d.id, d.edit.fields).Some?
    requires !IsObstructed(disk, FlatPath(p, d.id))
    ensures
      var after := After(disk, CreatePlan(c, p, disk, document, d, Render(d.id, d.edit.fields).value));
      GetTicket(c, p, after, d.id)
      == if AllReadable(document.tickets) then Ok(Some(CreatedTicket(d))) else Fail(MalformedManifest)
  {
    var content := Render(d.id, d.edit.fields).value;
    var after := After(disk, CreatePlan(c, p, disk, document, d, content));
    CreateLands(c, p, disk, d, document, content);
    AppendedAreReadable(document, d);
    FlatTicketIsRead(c, p, after, CreatedTickets(document, d), CreatedObject(document, d), |document.tickets|, d);
  }

  lemma AppendedAreReadable(document: Document, d: Draft)
    requires IsSafeSegment(d.id)
    ensures ReadableThrough(CreatedTickets(document, d), |document.tickets|) <==> AllReadable(document.tickets)
  {
    CreatedEntryIs(d);
    var before, after := document.tickets, CreatedTickets(document, d);
    assert after[|before|] == CreatedEntry(d);
    forall k | 0 <= k < |before| ensures StubOf(after[k]) == StubOf(before[k]) {
      assert after[k] == before[k];
    }
  }

  /** A created entry and its file in place are read whole, once the reader gets there. */
  lemma FlatTicketIsRead(c: Codec, p: Project, after: Disk, tickets: seq<Dict>, obj: Dict, i: nat, d: Draft)
    requires IsJson(c) && IsDiscovered(p) && IsSafeSegment(d.id) && Render(d.id, d.edit.fields).Some?
    requires LoadManifest(c, after, p.Manifest()) == Ok(Document(obj, tickets))
    requires FindEntry(tickets, d.id) == Some(i) && tickets[i] == CreatedEntry(d)
    requires Opened(after, FlatPath(p, d.id)) == Some(Text(c.dumps(Render(d.id, d.edit.fields).value)))
    ensures GetTicket(c, p, after, d.id)
            == if ReadableThrough(tickets, i) then Ok(Some(CreatedTicket(d))) else Fail(MalformedManifest)
  {
    CreatedEntryIs(d);
    FlatEntryResolves(c, p, CreatedEntry(d), d.id);
    FlatIsApart(p, d.id);
    TicketIsRead(c, p, after, tickets, obj, i, d.id, FlatPath(p, d.id), d.edit.fields);
  }

  // ---- Deleting -----------------------------------------------------------------------

  function DeletedObject(document: Document, i: nat): Dict
    requires i < |document.tickets|
  {
    Put(document.obj, "tickets", Arr(Objects(Without(document.tickets, i))))
  }

  /** What deleting a ticket plans. */
  function DeletePlan(c: Codec, p: Project, disk: Disk, document: Document, i: nat, id: string, path: Path): Plan
    requires i < |document.tickets|
  {
    ThreeFiles(p, c.dumps(Obj(DeletedObject(document, i))), path, None, RoadmapOfDelete(p, disk, id))
  }

  function RoadmapOfDelete(p: Project, disk: Disk, id: string): Plan {
    RoadmapChange(p.roadmap, RoadmapText(p, disk), DeleteInRoadmap(id))
  }

  /** The entry of a ticket, and the content file it declares. */
  ghost predicate IsEntryAt(c: Codec, p: Project, disk: Disk, document: Document, i: nat, id: string, path: Path) {
    && LoadManifest(c, disk, p.Manifest()) == Ok(document)
    && FindEntry(document.tickets, id) == Some(i) && MatchesIdPattern(id)
    && EntryContentPath(c, p, document.tickets[i], id) == Some(path)
  }

  ghost predicate IsFlatEntryAt(c: Codec, p: Project, disk: Disk, document: Document, i: nat, id: string) {
    && LoadManifest(c, disk, p.Manifest()) == Ok(document)
    && FindEntry(document.tickets, id) == Some(i)
    && IsSafeSegment(id) && Get(document.tickets[i], "path") == Some(Str(FlatText(id)))
  }

  lemma FlatIsEntry(c: Codec, p: Project, disk: Disk, document: Document, i: nat, id: string)
    requires IsJson(c) && IsDiscovered(p) && IsFlatEntryAt(c, p, disk, document, i, id)
    ensures IsEntryAt(c, p, disk, document, i, id, FlatPath(p, id))
  {
    FlatEntryResolves(c, p, document.tickets[i], id);
  }

  /** A delete is planned exactly when there is such an entry. */
  lemma DeleteIsPlanned(c: Codec, p: Project, disk: Disk, id: string)
    ensures RenderDelete(c, p, disk, id).Ok? <==>
      exists document, i, path :: IsEntryAt(c, p, disk, document, i, id, path)
  {
    if RenderDelete(c, p, disk, id).Ok? {
      var document := LoadManifest(c, disk, p.Manifest()).value;
      var i := FindEntry(document.tickets, id).value;
      assert IsEntryAt(c, p, disk, document, i, id, EntryContentPath(c, p, document.tickets[i], id).value);
    }
  }

  lemma PlanOfDelete(c: Codec, p: Project, disk: Disk, document: Document, i: nat, id: string, path: Path)
    requires IsEntryAt(c, p, disk, document, i, id, path)
    ensures RenderDelete(c, p, disk, id) == Ok(DeletePlan(c, p, disk, document, i, id, path))
  {
  }

  lemma DeleteIsClear(c: Codec, p: Project, disk: Disk, document: Document, i: nat, id: string, path: Path)
    requires IsEntryAt(c, p, disk, document, i, id, path) && !IsObstructed(disk, path)
    ensures AtomicLaws.IsClear(disk, DeletePlan(c, p, disk, document, i, id, path))
  {
    ReadIsOpen(disk, p.Manifest());
    RoadmapChangeIsOpen(p, disk, DeleteInRoadmap(id));
    PlanIsClear(p, disk, c.dumps(Obj(DeletedObject(document, i))), path, None, RoadmapOfDelete(p, disk, id));
  }

  lemma DeleteApplies(c: Codec, p: Project, disk: Disk, document: Document, i: nat, id: string, path: Path)
    requires IsDiscovered(p) && IsEntryAt(c, p, disk, document, i, id, path) && !IsObstructed(disk, path)
    ensures
      var plan := DeletePlan(c, p, disk, document, i, id, path);
      Apply(p, disk, plan) == if IsSafeTarget(p, path) then Done(After(disk, plan)) else Refused
  {
    RoadmapChangeIs(p, RoadmapText(p, disk), DeleteInRoadmap(id));
    PlanIsSafe(p, c.dumps(Obj(DeletedObject(document, i))), path, None, RoadmapOfDelete(p, disk, id));
    PlanIsInOrder(p, c.dumps(Obj(DeletedObject(document, i))), path, None, RoadmapOfDelete(p, disk, id));
    DeleteIsClear(c, p, disk, document, i, id, path);
    AtomicLaws.ClearGoesIn(disk, DeletePlan(c, p, disk, document, i, id, path));
  }

  /** A delete plan that is carried out takes exactly its entry out of the manifest, and removes
      the declared file; a roadmap declared as a content file comes back when it had an item to
      lose. */
  lemma DeletePlanLands(c: Codec, p: Project, disk: Disk, document: Document, i: nat, id: string, path: Path)
    requires IsJson(c) && IsDiscovered(p) && IsEntryAt(c, p, disk, document, i, id, path) && path != p.Manifest()
    requires !IsObstructed(disk, path)
    ensures
      var after := After(disk, DeletePlan(c, p, disk, document, i, id, path));
      && LoadManifest(c, after, p.Manifest()) == Ok(Document(DeletedObject(document, i), Without(document.tickets, i)))
      && (FileAt(after, path) == None <==> p.roadmap != Some(path) || RoadmapOfDelete(p, disk, id) == [])
  {
    var after := After(disk, DeletePlan(c, p, disk, document, i, id, path));
    var text := c.dumps(Obj(DeletedObject(document, i)));
    RoadmapChangeIs(p, RoadmapText(p, disk), DeleteInRoadmap(id));
    DeleteIsClear(c, p, disk, document, i, id, path);
    PlanLands(p, disk, text, path, None, RoadmapOfDelete(p, disk, id));
    PlanIsRead(p, disk, text, path, None, RoadmapOfDelete(p, disk, id));
    LoadedIsWellFormed(c, disk, p.Manifest());
    DroppedManifest(c, p, after, document.obj, document.tickets, i);
  }

  /** The content file has a reader, and is gone or valid. */
  predicate IsGoneOrValid(c: Codec, disk: Disk, path: Path, id: string) {
    && (SuffixOf(path) == ".json" || SuffixOf(path) == ".md")
    && match Opened(disk, path)
       case None => true
       case Some(Unreadable) => false
       case Some(Text(text)) => SuffixOf(path) == ".json" ==> ContentOf(c, id, text).Some?
  }

  /** The fields a delete still finds. */
  function LastContent(c: Codec, disk: Disk, path: Path, id: string): Option<Fields> {
    match Opened(disk, path)
    case Some(Text(text)) => if SuffixOf(path) == ".json" then ContentOf(c, id, text) else None
    case _ => None
  }

  /** What is read of a ticket before it goes: its manifest entry, with its content where the
      file is there; and which error refuses it. */
  lemma RereadOf(c: Codec, p: Project, disk: Disk, document: Document, i: nat, id: string, path: Path)
    requires IsDiscovered(p) && IsEntryAt(c, p, disk, document, i, id, path)
    ensures RereadForDelete(c, p, disk, id) ==
      if !ReadableThrough(document.tickets, i) then Fail(MalformedManifest)
      else if SuffixOf(path) != ".json" && SuffixOf(path) != ".md" then Fail(TicketFormatUnsupported)
      else if IsGoneOrValid(c, disk, path, id) then
        Ok(StubOf(document.tickets[i]).value.(content := LastContent(c, disk, path, id)))
      else if IsUnreadable(disk, path) then Fail(TicketFileUnreadable)
      else Fail(TicketInvalid)
  {
    ReadAndWriteResolveAlike(c, p, document.tickets[i], id);
    FindStubAt(document.tickets, id, i, 0);
  }

  /** The manifest is no valid content file, so no delete removes it. */
  lemma ManifestIsNoContent(c: Codec, p: Project, disk: Disk, id: string)
    requires LoadManifest(c, disk, p.Manifest()).Ok?
    ensures !IsGoneOrValid(c, disk, p.Manifest(), id)
  {
    var obj := LoadManifest(c, disk, p.Manifest()).value.obj;
    JsonSuffix(p.Manifest(), "tickets");
    HasIs(obj, "tickets");
    assert "tickets" !in CONTENT_KEYS;
  }

  /** When a delete the run state permits and the renderer plans goes through: exactly when
      the reader can stream to the entry, the declared file has a reader and is gone or
      valid, and the guard lets it be removed. What is answered is the ticket as it last was;
      a refusal touches nothing. */
  lemma DeleteGoesThrough(c: Codec, p: Project, disk: Disk, document: Document, i: nat, state: RunStates.RunState,
                          id: string, path: Path)
    requires IsJson(c) && IsDiscovered(p) && IsEntryAt(c, p, disk, document, i, id, path)
    requires state in Gate.DELETABLE_STATES
    ensures
      var outcome := DeleteOutcome(c, p, disk, state, id);
      && (outcome.answer.Ok? <==>
           ReadableThrough(document.tickets, i) && IsGoneOrValid(c, disk, path, id) && IsSafeTarget(p, path))
      && (outcome.answer.Ok? ==>
           outcome == Outcome(After(disk, DeletePlan(c, p, disk, document, i, id, path)),
                              Ok(StubOf(document.tickets[i]).value.(content := LastContent(c, disk, path, id)))))
      && (outcome.answer.Ok? ==> path != p.Manifest())
      && (outcome.answer.Fail? ==> outcome.disk == disk)
  {
    PlanOfDelete(c, p, disk, document, i, id, path);
    OutcomeOfDelete(c, p, disk, state, id, DeletePlan(c, p, disk, document, i, id, path));
    RereadOf(c, p, disk, document, i, id, path);
    if IsGoneOrValid(c, disk, path, id) {
      DeleteApplies(c, p, disk, document, i, id, path);
    }
    if path == p.Manifest() {
      ManifestIsNoContent(c, p, disk, id);
    }
  }

  lemma OutcomeOfDelete(c: Codec, p: Project, disk: Disk, state: RunStates.RunState, id: string, plan: Plan)
    requires state in Gate.DELETABLE_STATES && RenderDelete(c, p, disk, id) == Ok(plan)
    ensures
      var ticket, applied := RereadForDelete(c, p, disk, id), Apply(p, disk, plan);
      DeleteOutcome(c, p, disk, state, id) ==
        if ticket.Fail? then Outcome(disk, ticket)
        else match applied
          case Refused => Outcome(disk, Fail(PathTraversal))
          case Stopped(left) => Outcome(left, Fail(AtomicWriteFailed))
          case Done(after) => Outcome(after, ticket)
  {
  }

  /** A delete that went through took exactly its entry out of the manifest, and the declared
      file with it; a roadmap declared as a content file comes back when it had an item to
      lose. */
  lemma DeleteLands(c: Codec, p: Project, disk: Disk, document: Document, i: nat, state: RunStates.RunState,
                    id: string, path: Path)
    requires IsJson(c) && IsDiscovered(p) && IsEntryAt(c, p, disk, document, i, id, path)
    requires state in Gate.DELETABLE_STATES && DeleteOutcome(c, p, disk, state, id).answer.Ok?
    ensures
      var after := DeleteOutcome(c, p, disk, state, id).disk;
      && LoadManifest(c, after, p.Manifest()) == Ok(Document(DeletedObject(document, i), Without(document.tickets, i)))
      && (FileAt(after, path) == None <==> p.roadmap != Some(path) || RoadmapOfDelete(p, disk, id) == [])
  {
    DeleteGoesThrough(c, p, disk, document, i, state, id, path);
    DeletePlanLands(c, p, disk, document, i, id, path);
  }

  /** No delete, refused or not, touches any file but the manifest, the declared one and the
      roadmap. */
  lemma DeleteKeepsOtherFiles(c: Codec, p: Project, disk: Disk, document: Document, i: nat, state: RunStates.RunState,
                              id: string, path: Path, other: Path)
    requires IsDiscovered(p) && IsEntryAt(c, p, disk, document, i, id, path)
    requires other != p.Manifest() && other != path && p.roadmap != Some(other)
    ensures FileAt(DeleteOutcome(c, p, disk, state, id).disk, other) == FileAt(disk, other)
  {
    if state in Gate.DELETABLE_STATES {
      PlanOfDelete(c, p, disk, document, i, id, path);
      OutcomeOfDelete(c, p, disk, state, id, DeletePlan(c, p, disk, document, i, id, path));
      RereadOf(c, p, disk, document, i, id, path);
      if IsGoneOrValid(c, disk, path, id) {
        DeleteApplies(c, p, disk, document, i, id, path);
      }
      RoadmapChangeIs(p, RoadmapText(p, disk), DeleteInRoadmap(id));
      PlanKeepsOthers(p, disk, c.dumps(Obj(DeletedObject(document, i))), path, None, RoadmapOfDelete(p, disk, id),
                      other);
    }
  }

  function NotesBelow(): seq<string> { ["notes.txt"] }

  lemma NotesAreText(root: Path)
    ensures SuffixOf(root + NotesBelow()) == ".txt"
    ensures AllPlain(NotesBelow())
  {
    var name := "notes.txt";
    assert LastDot(name, 9) == LastDot(name, 8) == LastDot(name, 7) == LastDot(name, 6) == Some(5);
    assert name[5..] == ".txt";
    assert Lower(".txt") == ".txt";
    assert IsPlain(name);
  }

  lemma NotesAreDeclared(c: Codec, p: Project, entry: Dict, id: string)
    requires IsJson(c) && IsDiscovered(p) && IsSafeSegment(id) && Get(entry, "path") == Some(Str("notes.txt"))
    ensures EntryContentPath(c, p, entry, id) == Some(p.root + NotesBelow())
  {
    NotesAreText(p.root);
    assert RelPosix(NotesBelow()) == "notes.txt";
    DeclaredBelowRoot(c, p, entry, id, NotesBelow());
  }

  /** One input it refuses: an entry that declares `notes.txt` cannot be deleted, whether the
      file is there or gone. */
  lemma NotesAreNotDeleted(c: Codec, p: Project, disk: Disk, document: Document, i: nat, state: RunStates.RunState,
                           id: string)
    requires IsJson(c) && IsDiscovered(p) && LoadManifest(c, disk, p.Manifest()) == Ok(document)
    requires FindEntry(document.tickets, id) == Some(i) && IsSafeSegment(id)
    requires Get(document.tickets[i], "path") == Some(Str("notes.txt"))
    requires ReadableThrough(document.tickets, i) && state in Gate.DELETABLE_STATES
    ensures DeleteOutcome(c, p, disk, state, id) == Outcome(disk, Fail(TicketFormatUnsupported))
  {
    NotesAreDeclared(c, p, document.tickets[i], id);
    TextIsNotDeleted(c, p, disk, document, i, state, id);
  }

  lemma TextIsNotDeleted(c: Codec, p: Project, disk: Disk, document: Document, i: nat, state: RunStates.RunState,
                         id: string)
    requires IsDiscovered(p) && IsEntryAt(c, p, disk, document, i, id, p.root + NotesBelow())
    requires ReadableThrough(document.tickets, i) && state in Gate.DELETABLE_STATES
    ensures DeleteOutcome(c, p, disk, state, id) == Outcome(disk, Fail(TicketFormatUnsupported))
  {
    var path := p.root + NotesBelow();
    NotesAreText(p.root);
    assert ".txt"[1] != ".json"[1] && ".txt"[1] != ".md"[1];
    PlanOfDelete(c, p, disk, document, i, id, path);
    OutcomeOfDelete(c, p, disk, state, id, DeletePlan(c, p, disk, document, i, id, path));
    RereadOf(c, p, disk, document, i, id, path);
  }

  function UnderRoadmapBelow(): seq<string> { ["ROADMAP.md", "x.json"] }

  lemma UnderRoadmapText()
    ensures RelPosix(UnderRoadmapBelow()) == "ROADMAP.md/x.json" && AllPlain(UnderRoadmapBelow())
  {
    assert IsPlain("ROADMAP.md") && IsPlain("x.json");
    JoinTwo("ROADMAP.md", "x.json");
    assert "ROADMAP.md" + "/" + "x.json" == "ROADMAP.md/x.json";
  }

  lemma UnderRoadmapIsDeclared(c: Codec, p: Project, entry: Dict, id: string)
    requires IsJson(c) && IsDiscovered(p) && IsSafeSegment(id)
    requires Get(entry, "path") == Some(Str("ROADMAP.md/x.json"))
    ensures EntryContentPath(c, p, entry, id) == Some(p.root + ["ROADMAP.md"] + ["x.json"])
  {
    UnderRoadmapText();
    DeclaredBelowRoot(c, p, entry, id, UnderRoadmapBelow());
    assert p.root + UnderRoadmapBelow() == p.root + ["ROADMAP.md"] + ["x.json"];
  }

  /** Another: nothing is there, but a regular file is in the way, so the reader does not take
      the content file for gone. An edit is refused alike. */
  lemma NothingUnderAFile(c: Codec, p: Project, disk: Disk, document: Document, i: nat, id: string, e: Edit)
    requires IsJson(c) && IsDiscovered(p) && LoadManifest(c, disk, p.Manifest()) == Ok(document)
    requires FindEntry(document.tickets, id) == Some(i) && IsSafeSegment(id)
    requires Get(document.tickets[i], "path") == Some(Str("ROADMAP.md/x.json"))
    requires p.root + ["ROADMAP.md"] in disk && ReadableThrough(document.tickets, i)
    ensures DeleteOutcome(c, p, disk, RunStates.Todo, id) == Outcome(disk, Fail(TicketFileUnreadable))
    ensures EditOutcome(c, p, disk, RunStates.Todo, id, e) == Outcome(disk, Fail(TicketFileUnreadable))
  {
    UnderRoadmapIsDeclared(c, p, document.tickets[i], id);
    UnderFileIsRefused(c, p, disk, document, i, id, e, p.root + ["ROADMAP.md"]);
  }

  lemma UnderFileIsRefused(c: Codec, p: Project, disk: Disk, document: Document, i: nat, id: string, e: Edit,
                           file: Path)
    requires IsDiscovered(p) && file in disk && ReadableThrough(document.tickets, i)
    requires IsEntryAt(c, p, disk, document, i, id, file + ["x.json"])
    ensures DeleteOutcome(c, p, disk, RunStates.Todo, id) == Outcome(disk, Fail(TicketFileUnreadable))
    ensures EditOutcome(c, p, disk, RunStates.Todo, id, e) == Outcome(disk, Fail(TicketFileUnreadable))
  {
    var path := file + ["x.json"];
    assert IsBelow(path, file);
    JsonSuffix(path, "x");
    UnreadableIsNotDeleted(c, p, disk, document, i, id, path);
    UnreadableIsNotEdited(c, p, disk, document, i, id, e, path);
  }

  lemma UnreadableIsNotDeleted(c: Codec, p: Project, disk: Disk, document: Document, i: nat, id: string, path: Path)
    requires IsDiscovered(p) && IsEntryAt(c, p, disk, document, i, id, path) && ReadableThrough(document.tickets, i)
    requires IsUnreadable(disk, path) && SuffixOf(path) == ".json"
    ensures DeleteOutcome(c, p, disk, RunStates.Todo, id) == Outcome(disk, Fail(TicketFileUnreadable))
  {
    PlanOfDelete(c, p, disk, document, i, id, path);
    OutcomeOfDelete(c, p, disk, RunStates.Todo, id, DeletePlan(c, p, disk, document, i, id, path));
    RereadOf(c, p, disk, document, i, id, path);
  }

  lemma UnreadableIsNotEdited(c: Codec, p: Project, disk: Disk, document: Document, i: nat, id: string, e: Edit,
                              path: Path)
    requires IsEntryAt(c, p, disk, document, i, id, path) && IsUnreadable(disk, path) && SuffixOf(path) == ".json"
    ensures EditOutcome(c, p, disk, RunStates.Todo, id, e) == Outcome(disk, Fail(TicketFileUnreadable))
  {
  }

  // ---- Create, then delete ------------------------------------------------------------

  /** Dropping the entry just appended gives back the manifest. */
  lemma DroppedAppended(document: Document, d: Draft)
    requires Get(document.obj, "tickets") == Some(Arr(Objects(document.tickets)))
    ensures Without(CreatedTickets(document, d), |document.tickets|) == document.tickets
    ensures DeletedObject(Document(CreatedObject(document, d), CreatedTickets(document, d)), |document.tickets|)
            == document.obj
  {
    assert Without(CreatedTickets(document, d), |document.tickets|) == document.tickets;
    PutTwice(document.obj, "tickets", Arr(Objects(CreatedTickets(document, d))), Arr(Objects(document.tickets)));
    PutSame(document.obj, "tickets");
  }

  /** The text a reader finds in the roadmap after a plan's roadmap change. */
  lemma RoadmapAfterPlanIs(p: Project, disk: Disk, text: string, path: Path, content: Option<string>,
                           change: RoadmapTransform)
    requires IsDiscovered(p) && path != p.Manifest() && p.roadmap != Some(path) && RoadmapText(p, disk).Some?
    requires IsOpen(disk, p.Manifest()) && !IsObstructed(disk, path)
    ensures
      var current := RoadmapText(p, disk).value;
      var roadmap := RoadmapChange(p.roadmap, RoadmapText(p, disk), change);
      var after := After(disk, ThreeFiles(p, text, path, content, roadmap));
      RoadmapText(p, after) == Some(RoadmapOnDisk.ReadAfter(current, Transformed(change, current)))
  {
    var current := RoadmapText(p, disk).value;
    var roadmap := RoadmapChange(p.roadmap, RoadmapText(p, disk), change);
    var after := After(disk, ThreeFiles(p, text, path, content, roadmap));
    RoadmapFileAfter(p, disk, text, path, content, change);
    var raw := ReadsFrom(disk, p.roadmap.value);
    NoReturnIsRead(p, disk);
    ChangeIsRead(p.roadmap, raw, current, change);
    RoadmapChangeIs(p, RoadmapText(p, disk), change);
    TextIsRead(after, p.roadmap.value, if roadmap == [] then raw else roadmap[0].newText.value);
  }

  lemma ReadsFrom(disk: Disk, path: Path) returns (raw: string)
    requires ReadText(disk, path).Some?
    ensures FileAt(disk, path) == Some(Text(raw)) && ReadText(disk, path).value == Newlines.Universal(raw)
  {
    raw := disk[path].text;
  }

  lemma TextIsRead(disk: Disk, path: Path, raw: string)
    requires !IsObstructed(disk, path) && FileAt(disk, path) == Some(Text(raw))
    ensures ReadText(disk, path) == Some(Newlines.Universal(raw))
  {
  }

  /** What is read of a roadmap after one change of it, or none. */
  lemma ChangeIsRead(path: Option<Path>, raw: string, current: string, change: RoadmapTransform)
    requires path.Some? && current == Newlines.Universal(raw) && '\r' !in current
    ensures
      var roadmap := RoadmapChange(path, Some(current), change);
      Newlines.Universal(if roadmap == [] then raw else roadmap[0].newText.value)
      == RoadmapOnDisk.ReadAfter(current, Transformed(change, current))
  {
    Newlines.UniversalIsSame(current);
  }

  lemma RoadmapFileAfter(p: Project, disk: Disk, text: string, path: Path, content: Option<string>,
                         change: RoadmapTransform)
    requires IsDiscovered(p) && path != p.Manifest() && p.roadmap != Some(path) && RoadmapText(p, disk).Some?
    requires IsOpen(disk, p.Manifest()) && !IsObstructed(disk, path)
    ensures
      var roadmap := RoadmapChange(p.roadmap, RoadmapText(p, disk), change);
      var after := After(disk, ThreeFiles(p, text, path, content, roadmap));
      && !IsObstructed(after, p.roadmap.value)
      && FileAt(after, p.roadmap.value)
         == if roadmap == [] then FileAt(disk, p.roadmap.value) else FileOf(roadmap[0].newText)
  {
    var roadmap := RoadmapChange(p.roadmap, RoadmapText(p, disk), change);
    var plan := ThreeFiles(p, text, path, content, roadmap);
    RoadmapIsNoContent(p, p.Manifest());
    RoadmapChangeIs(p, RoadmapText(p, disk), change);
    ReadIsOpen(disk, p.roadmap.value);
    RoadmapChangeIsOpen(p, disk, change);
    PlanIsClear(p, disk, text, path, content, roadmap);
    PlanLands(p, disk, text, path, content, roadmap);
    RoadmapStaysOpen(p, disk, plan, p.roadmap.value);
    if roadmap == [] {
      PlanKeepsOthers(p, disk, text, path, content, roadmap, p.roadmap.value);
    }
  }

  lemma ObstructionStays(disk: Disk, after: Disk, path: Path)
    requires forall q :: q in disk && !AtomicLaws.AreApart(q, path) ==> q in after
    requires IsObstructed(disk, path)
    ensures IsObstructed(after, path)
  {
  }

  /** A file that could not be read still cannot be, when only files apart from it went. */
  lemma UnreadStaysUnread(disk: Disk, after: Disk, path: Path)
    requires forall q :: q in disk && !AtomicLaws.AreApart(q, path) ==> q in after
    requires ReadText(disk, path).None? && FileAt(after, path) == FileAt(disk, path)
    ensures ReadText(after, path).None?
  {
    if IsObstructed(disk, path) {
      ObstructionStays(disk, after, path);
    }
  }

  lemma RoadmapStaysOpen(p: Project, disk: Disk, plan: Plan, path: Path)
    requires IsOpen(disk, path) && AtomicLaws.IsClear(disk, plan)
    ensures !IsObstructed(After(disk, plan), path)
  {
    forall i | 0 <= i < |plan| ensures AtomicLaws.AreApart(plan[i].path, path) {
      AtomicLaws.FileIsApart(disk, path, plan[i].path);
    }
    assert plan[..|plan|] == plan;
    AtomicLaws.ApartStaysClear(disk, plan, |plan|, path);
  }

  /** Deleting a ticket whose create went through: the delete goes through, the manifest is
      the one before, key for key and entry for entry, and the content file is gone. */
  lemma CreateThenDeleteRestoresManifest(c: Codec, p: Project, disk: Disk, d: Draft, state: RunStates.RunState)
    requires IsJson(c) && IsDiscovered(p) && CreateOutcome(c, p, disk, d).answer.Ok? && state in Gate.DELETABLE_STATES
    ensures
      var created := CreateOutcome(c, p, disk, d);
      var deleted := DeleteOutcome(c, p, created.disk, state, d.id);
      && created.answer == Ok(CreatedTicket(d)) && deleted.answer == Ok(CreatedTicket(d))
      && LoadManifest(c, deleted.disk, p.Manifest()) == LoadManifest(c, disk, p.Manifest())
      && FileAt(deleted.disk, FlatPath(p, d.id)) == None
  {
    var document := WentThrough(c, p, disk, d);
    CreateThenDeleteIs(c, p, disk, d, state, document);
  }

  /** The two plans, one after the other. */
  lemma CreateThenDeleteIs(c: Codec, p: Project, disk: Disk, d: Draft, state: RunStates.RunState, document: Document)
    requires IsJson(c) && IsDiscovered(p) && IsSafeSegment(d.id) && Render(d.id, d.edit.fields).Some?
    requires LoadManifest(c, disk, p.Manifest()) == Ok(document) && FindEntry(document.tickets, d.id).None?
    requires !IsObstructed(disk, FlatPath(p, d.id))
    requires AllReadable(document.tickets) && state in Gate.DELETABLE_STATES
    ensures
      var content := Render(d.id, d.edit.fields).value;
      var middle := After(disk, CreatePlan(c, p, disk, document, d, content));
      var between := Document(CreatedObject(document, d), CreatedTickets(document, d));
      var after := After(middle, DeletePlan(c, p, middle, between, |document.tickets|, d.id, FlatPath(p, d.id)));
      && CreateOutcome(c, p, disk, d) == Outcome(middle, Ok(CreatedTicket(d)))
      && DeleteOutcome(c, p, middle, state, d.id) == Outcome(after, Ok(CreatedTicket(d)))
      && IsOpen(middle, p.Manifest()) && !IsObstructed(middle, FlatPath(p, d.id))
      && LoadManifest(c, after, p.Manifest()) == Ok(document)
      && FileAt(after, FlatPath(p, d.id)) == None
  {
    CreateReadsBack(c, p, disk, d, document);
    CreateLands(c, p, disk, d, document, Render(d.id, d.edit.fields).value);
    DeleteOfCreated(c, p, After(disk, CreatePlan(c, p, disk, document, d, Render(d.id, d.edit.fields).value)), d, state,
                    document);
    LoadedIsWellFormed(c, disk, p.Manifest());
    DroppedAppended(document, d);
  }

  lemma DeleteOfFlat(c: Codec, p: Project, disk: Disk, document: Document, i: nat, state: RunStates.RunState,
                     id: string)
    requires IsJson(c) && IsDiscovered(p) && IsFlatEntryAt(c, p, disk, document, i, id)
    requires ReadableThrough(document.tickets, i) && IsGoneOrValid(c, disk, FlatPath(p, id), id)
    requires state in Gate.DELETABLE_STATES
    ensures DeleteOutcome(c, p, disk, state, id)
            == Outcome(After(disk, DeletePlan(c, p, disk, document, i, id, FlatPath(p, id))),
                       Ok(StubOf(document.tickets[i]).value.(content := LastContent(c, disk, FlatPath(p, id), id))))
  {
    FlatIsSafe(p, id);
    FlatIsEntry(c, p, disk, document, i, id);
    DeleteGoesThrough(c, p, disk, document, i, state, id, FlatPath(p, id));
  }

  /** The delete of a ticket that was just created, on a disk where the create has landed. */
  lemma DeleteOfCreated(c: Codec, p: Project, middle: Disk, d: Draft, state: RunStates.RunState, document: Document)
    requires IsJson(c) && IsDiscovered(p) && IsSafeSegment(d.id) && Render(d.id, d.edit.fields).Some?
    requires AllReadable(document.tickets) && state in Gate.DELETABLE_STATES
    requires LoadManifest(c, middle, p.Manifest())
             == Ok(Document(CreatedObject(document, d), CreatedTickets(document, d)))
    requires FindEntry(CreatedTickets(document, d), d.id) == Some(|document.tickets|)
    requires Opened(middle, FlatPath(p, d.id)) == Some(Text(c.dumps(Render(d.id, d.edit.fields).value)))
    ensures
      var between := Document(CreatedObject(document, d), CreatedTickets(document, d));
      var after := After(middle, DeletePlan(c, p, middle, between, |document.tickets|, d.id, FlatPath(p, d.id)));
      && DeleteOutcome(c, p, middle, state, d.id) == Outcome(after, Ok(CreatedTicket(d)))
      && LoadManifest(c, after, p.Manifest())
         == Ok(Document(DeletedObject(between, |document.tickets|), Without(between.tickets, |document.tickets|)))
      && FileAt(after, FlatPath(p, d.id)) == None
  {
    var between := Document(CreatedObject(document, d), CreatedTickets(document, d));
    CreatedEntryIs(d);
    ContentReadsBack(c, d.id, d.edit.fields);
    AppendedAreReadable(document, d);
    FlatIsApart(p, d.id);
    FlatIsEntry(c, p, middle, between, |document.tickets|, d.id);
    DeleteOfFlat(c, p, middle, between, |document.tickets|, state, d.id);
    DeletePlanLands(c, p, middle, between, |document.tickets|, d.id, FlatPath(p, d.id));
  }

  /** What the roadmap file holds once a change of it has been written, or was none. */
  function Written(before: File, current: string, change: Option<string>): File {
    if change.Some? && change.value != current then Text(change.value) else before
  }

  function WrittenTwice(before: File, current: string, first: Option<string>, middle: string, second: Option<string>)
    : File
  {
    Written(Written(before, current, first), middle, second)
  }

  /** A plan's roadmap change, as the file and as the text that is read. */
  lemma RoadmapIsWritten(p: Project, disk: Disk, text: string, id: string, content: Option<string>,
                         change: RoadmapTransform, current: string, after: Disk)
    requires IsDiscovered(p) && id != "" && RoadmapText(p, disk) == Some(current)
    requires IsOpen(disk, p.Manifest()) && !IsObstructed(disk, FlatPath(p, id))
    requires after == After(disk, ThreeFiles(p, text, FlatPath(p, id), content,
                                             RoadmapChange(p.roadmap, RoadmapText(p, disk), change)))
    ensures p.roadmap.value in disk && p.roadmap.value in after
    ensures RoadmapText(p, after) == Some(RoadmapOnDisk.ReadAfter(current, Transformed(change, current)))
    ensures after[p.roadmap.value] == Written(disk[p.roadmap.value], current, Transformed(change, current))
  {
    FlatIsApart(p, id);
    ReadIsOpen(disk, p.roadmap.value);
    RoadmapFileAfter(p, disk, text, FlatPath(p, id), content, change);
    RoadmapAfterPlanIs(p, disk, text, FlatPath(p, id), content, change);
  }

  /** What the roadmap goes through. */
  lemma RoadmapOfBoth(c: Codec, p: Project, disk: Disk, d: Draft, state: RunStates.RunState, current: string)
    requires IsJson(c) && IsDiscovered(p) && CreateOutcome(c, p, disk, d).answer.Ok? && state in Gate.DELETABLE_STATES
    requires RoadmapText(p, disk) == Some(current)
    ensures
      var deleted := DeleteOutcome(c, p, CreateOutcome(c, p, disk, d).disk, state, d.id).disk;
      var first := Transformed(CreateInRoadmap(d), current);
      var middle := RoadmapOnDisk.ReadAfter(current, first);
      var second := Transformed(DeleteInRoadmap(d.id), middle);
      && RoadmapText(p, deleted) == Some(RoadmapOnDisk.ReadAfter(middle, second))
      && p.roadmap.value in disk
      && FileAt(deleted, p.roadmap.value)
         == Some(WrittenTwice(disk[p.roadmap.value], current, first, middle, second))
  {
    var document := WentThrough(c, p, disk, d);
    var content := Render(d.id, d.edit.fields).value;
    var middle := After(disk, CreatePlan(c, p, disk, document, d, content));
    var between := Document(CreatedObject(document, d), CreatedTickets(document, d));
    CreateThenDeleteIs(c, p, disk, d, state, document);
    ReadIsOpen(disk, p.Manifest());
    RoadmapIsWritten(p, disk, c.dumps(Obj(CreatedObject(document, d))), d.id, Some(c.dumps(content)),
                     CreateInRoadmap(d), current, middle);
    RoadmapIsWritten(p, middle, c.dumps(Obj(DeletedObject(between, |document.tickets|))), d.id, None,
                     DeleteInRoadmap(d.id), RoadmapText(p, middle).value,
                     After(middle, DeletePlan(c, p, middle, between, |document.tickets|, d.id, FlatPath(p, d.id))));
  }

  lemma NoReturnIsRead(p: Project, disk: Disk)
    ensures RoadmapText(p, disk).Some? ==> '\r' !in RoadmapText(p, disk).value
  {
    if RoadmapText(p, disk).Some? {
      ReadIsOpen(disk, p.roadmap.value);
      Newlines.UniversalHasNoReturn(disk[p.roadmap.value].text);
    }
  }

  /** And the roadmap reads as before, character for character, exactly when no section matches,
      or the id has a digit and the title is one line. */
  lemma CreateThenDeleteRestoresRoadmap(c: Codec, p: Project, disk: Disk, d: Draft, state: RunStates.RunState,
                                        current: string)
    requires IsJson(c) && IsDiscovered(p) && CreateOutcome(c, p, disk, d).answer.Ok? && state in Gate.DELETABLE_STATES
    requires RoadmapText(p, disk) == Some(current) && RoadmapLaws.NoneCarries(Lines.Split(current), d.id)
    ensures
      var deleted := DeleteOutcome(c, p, CreateOutcome(c, p, disk, d).disk, state, d.id);
      RoadmapText(p, deleted.disk) == Some(current) <==> IsUndone(current, d)
  {
    var document := WentThrough(c, p, disk, d);
    NoReturnIsRead(p, disk);
    RoadmapOfBoth(c, p, disk, d, state, current);
    TextIsUndone(d, current);
  }

  lemma TextIsUndone(d: Draft, current: string)
    requires MatchesIdPattern(d.id) && '\r' !in current && RoadmapLaws.NoneCarries(Lines.Split(current), d.id)
    ensures
      var middle := RoadmapOnDisk.ReadAfter(current, Transformed(CreateInRoadmap(d), current));
      RoadmapOnDisk.ReadAfter(middle, Transformed(DeleteInRoadmap(d.id), middle)) == current <==> IsUndone(current, d)
  {
    RoadmapOnDisk.CreateThenDeleteOnDisk(current, d.edit.milestone, d.id, d.edit.title);
  }

  /** When a delete can undo a create in the roadmap. */
  ghost predicate IsUndone(current: string, d: Draft) {
    RoadmapLaws.SectionExists(Lines.Split(current), d.edit.milestone) ==>
      && RoadmapLaws.HasDigit(d.id)
      && RoadmapOnDisk.IsOneLine(d.edit.title, RoadmapOnDisk.IsFollowed(current, d.edit.milestone.value))
  }

  /** The file itself is the one before, byte for byte, exactly when no section matches, or that
      holds and it had no `"\r"`: what is written back is what was read. */
  lemma CreateThenDeleteRestoresFile(c: Codec, p: Project, disk: Disk, d: Draft, state: RunStates.RunState,
                                     current: string)
    requires IsJson(c) && IsDiscovered(p) && CreateOutcome(c, p, disk, d).answer.Ok? && state in Gate.DELETABLE_STATES
    requires RoadmapText(p, disk) == Some(current) && RoadmapLaws.NoneCarries(Lines.Split(current), d.id)
    ensures
      var deleted := DeleteOutcome(c, p, CreateOutcome(c, p, disk, d).disk, state, d.id);
      FileAt(deleted.disk, p.roadmap.value) == FileAt(disk, p.roadmap.value)
      <==> (RoadmapLaws.SectionExists(Lines.Split(current), d.edit.milestone) ==>
             IsUndone(current, d) && '\r' !in disk[p.roadmap.value].text)
  {
    var document := WentThrough(c, p, disk, d);
    RoadmapOfBoth(c, p, disk, d, state, current);
    ReadIsOpen(disk, p.roadmap.value);
    FileIsUndone(d, current, disk[p.roadmap.value].text);
  }

  lemma FileIsUndone(d: Draft, current: string, raw: string)
    requires MatchesIdPattern(d.id) && current == Newlines.Universal(raw)
    requires RoadmapLaws.NoneCarries(Lines.Split(current), d.id)
    ensures
      var first := Transformed(CreateInRoadmap(d), current);
      var middle := RoadmapOnDisk.ReadAfter(current, first);
      var second := Transformed(DeleteInRoadmap(d.id), middle);
      WrittenTwice(Text(raw), current, first, middle, second) == Text(raw)
      <==> (RoadmapLaws.SectionExists(Lines.Split(current), d.edit.milestone) ==>
             IsUndone(current, d) && '\r' !in raw)
  {
    var first := Transformed(CreateInRoadmap(d), current);
    var middle := RoadmapOnDisk.ReadAfter(current, first);
    var second := Transformed(DeleteInRoadmap(d.id), middle);
    RawIsSame(raw);
    DeletedIsUndone(d, current);
    RoadmapOnDisk.BothAreWritten(raw, d.edit.milestone, d.id, d.edit.title);
    WrittenBack(raw, current, first, middle, second,
                RoadmapLaws.SectionExists(Lines.Split(current), d.edit.milestone), IsUndone(current, d));
  }

  lemma RawIsSame(raw: string)
    ensures raw == Newlines.Universal(raw) <==> '\r' !in raw
    ensures '\r' !in Newlines.Universal(raw)
  {
    Newlines.UniversalHasNoReturn(raw);
    Newlines.UniversalIsSame(raw);
  }

  lemma DeletedIsUndone(d: Draft, current: string)
    requires MatchesIdPattern(d.id) && '\r' !in current && RoadmapLaws.NoneCarries(Lines.Split(current), d.id)
    ensures
      var middle := RoadmapOnDisk.ReadAfter(current, Transformed(CreateInRoadmap(d), current));
      RoadmapLaws.Applied(middle, Transformed(DeleteInRoadmap(d.id), middle)) == current <==> IsUndone(current, d)
  {
    TextIsUndone(d, current);
    Newlines.UniversalHasNoReturn(RoadmapLaws.Applied(current, Transformed(CreateInRoadmap(d), current)));
    RoadmapOnDisk.DeletedIsRead(RoadmapOnDisk.ReadAfter(current, Transformed(CreateInRoadmap(d), current)), d.id);
  }

  /** The case analysis alone. */
  lemma WrittenBack(raw: string, current: string, first: Option<string>, middle: string, second: Option<string>,
                    written: bool, undone: bool)
    requires RoadmapOnDisk.AreWritten(raw, current, first, middle, second, written)
    requires RoadmapLaws.Applied(middle, second) == current <==> undone
    ensures WrittenTwice(Text(raw), current, first, middle, second) == Text(raw)
            <==> (written ==> undone && raw == current)
  {
  }

  /** A title with a line break in it meets neither: `"a\rb"` is read back as two lines, and the
      delete takes one. */
  lemma ReturnIsNotUndone(c: Codec, p: Project, disk: Disk, d: Draft, state: RunStates.RunState, current: string)
    requires IsJson(c) && IsDiscovered(p) && CreateOutcome(c, p, disk, d).answer.Ok? && state in Gate.DELETABLE_STATES
    requires RoadmapText(p, disk) == Some(current) && RoadmapLaws.NoneCarries(Lines.Split(current), d.id)
    requires RoadmapLaws.SectionExists(Lines.Split(current), d.edit.milestone) && d.edit.title == "a\rb"
    ensures RoadmapText(p, DeleteOutcome(c, p, CreateOutcome(c, p, disk, d).disk, state, d.id).disk) != Some(current)
  {
    CreateThenDeleteRestoresRoadmap(c, p, disk, d, state, current);
    assert d.edit.title[1] == '\r';
  }

  lemma CreateThenDeleteKeepsOthers(c: Codec, p: Project, disk: Disk, d: Draft, state: RunStates.RunState, other: Path)
    requires IsJson(c) && IsDiscovered(p) && CreateOutcome(c, p, disk, d).answer.Ok? && state in Gate.DELETABLE_STATES
    requires other != p.Manifest() && other != FlatPath(p, d.id) && p.roadmap != Some(other)
    ensures FileAt(DeleteOutcome(c, p, CreateOutcome(c, p, disk, d).disk, state, d.id).disk, other)
            == FileAt(disk, other)
  {
    var document := WentThrough(c, p, disk, d);
    var content := Render(d.id, d.edit.fields).value;
    var middle := After(disk, CreatePlan(c, p, disk, document, d, content));
    var between := Document(CreatedObject(document, d), CreatedTickets(document, d));
    CreateThenDeleteIs(c, p, disk, d, state, document);
    FlatIsApart(p, d.id);
    RoadmapChangeIs(p, RoadmapText(p, disk), CreateInRoadmap(d));
    RoadmapChangeIs(p, RoadmapText(p, middle), DeleteInRoadmap(d.id));
    PlanKeepsOthers(p, disk, c.dumps(Obj(CreatedObject(document, d))), FlatPath(p, d.id), Some(c.dumps(content)),
                    RoadmapChange(p.roadmap, RoadmapText(p, disk), CreateInRoadmap(d)), other);
    PlanKeepsOthers(p, middle, c.dumps(Obj(DeletedObject(between, |document.tickets|))), FlatPath(p, d.id), None,
                    RoadmapChange(p.roadmap, RoadmapText(p, middle), DeleteInRoadmap(d.id)), other);
  }
}
