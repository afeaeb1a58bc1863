/** The in-memory writer simulates the production one: from the same tickets, every write leaves
    the same tickets and gives the same answer, and keeps the roadmaps the same as far as
    reading a text file gives back what was written. */
module Simulation {
  import opened Common
  import opened Json
  import opened Paths
  import opened Project
  import opened TicketIds
  import opened TicketJson
  import opened Manifest
  import opened TicketReader
  import opened WriteRender
  import opened EntryLaws
  import opened AtomicWrite
  import opened PlanLaws
  import opened WriterLaws
  import opened CreateLaws
  import opened RealWriter
  import opened FakeWriter
  import Lines
  import Newlines
  import RoadmapEdit
  import RoadmapLaws
  import RoadmapOnDisk
  import AtomicLaws
  import RunStates
  import Gate = RunStateGate

  // ---- Related states -----------------------------------------------------------------

  /** Every entry is readable and, where its id can name a file, declares its flat path. */
  ghost predicate AreFlat(tickets: seq<Dict>) {
    forall i :: 0 <= i < |tickets| ==> IsFlat(tickets[i])
  }

  ghost predicate IsFlat(entry: Dict) {
    StubOf(entry).Some? && EntryId(entry).Some?
    && (IsSafeSegment(EntryId(entry).value) ==> Get(entry, "path") == Some(Str(FlatText(EntryId(entry).value))))
  }

  /** One content file and the fields seeded for it. */
  ghost predicate SameContent(c: Codec, id: string, file: Option<File>, f: Option<Fields>) {
    match file
    case None => f.None?
    case Some(Unreadable) => false
    case Some(Text(text)) => f.Some? && ContentOf(c, id, text) == Some(Normal(f.value))
  }

  function ContentsAt(w: FakeState, id: string): Option<Fields> {
    if id in w.contents then Some(w.contents[id]) else None
  }

  ghost predicate SameContents(c: Codec, p: Project, disk: Disk, w: FakeState) {
    forall id | IsSafeSegment(id) :: SameContent(c, id, Opened(disk, FlatPath(p, id)), ContentsAt(w, id))
  }

  ghost predicate SameTickets(c: Codec, p: Project, disk: Disk, w: FakeState) {
    && LoadManifest(c, disk, p.Manifest()).Ok?
    && LoadManifest(c, disk, p.Manifest()).value.tickets == w.manifest
    && AreFlat(w.manifest)
    && SameContents(c, p, disk, w)
  }

  /** The in-memory roadmap is the one a reader finds. */
  ghost predicate SameRoadmap(p: Project, disk: Disk, w: FakeState) {
    p.roadmap.Some? ==> RoadmapText(p, disk) == w.roadmap
  }

  /** The transform would put a title's `"\r"` into the roadmap. */
  ghost predicate PutsReturn(p: Project, roadmap: Option<string>, change: RoadmapTransform) {
    && p.roadmap.Some? && roadmap.Some?
    && match change
       case CreateInRoadmap(d) =>
         '\r' in d.edit.title && RoadmapLaws.SectionExists(Lines.Split(roadmap.value), d.edit.milestone)
       case EditInRoadmap(id, e) =>
         '\r' in e.title && RoadmapEdit.FindItem(Lines.Split(roadmap.value), id).Some?
       case DeleteInRoadmap(_) => false
  }

  /** The same error, or the same ticket up to empty notes: id, title, status, track,
      milestone, dependencies, provides and content fields are compared. */
  predicate SameAnswer(disk: Result<Ticket, WriteError>, fake: Answer) {
    if disk.Fail? then fake == disk
    else fake.Ok? && disk.value == fake.value.(content := NormalOf(fake.value.content))
  }

  function NormalOf(f: Option<Fields>): Option<Fields> { if f.Some? then Some(Normal(f.value)) else None }

  // ---- One step -----------------------------------------------------------------------

  ghost predicate SameWrite(c: Codec, id: string, content: Option<string>, f: Option<Fields>) {
    if content.None? then f.None?
    else f.Some? && ContentOf(c, id, content.value) == Some(Normal(f.value))
  }

  function Stored(contents: map<string, Fields>, id: string, f: Option<Fields>): map<string, Fields> {
    if f.Some? then contents[id := f.value] else contents - {id}
  }

  lemma FlatIsClear(c: Codec, p: Project, disk: Disk, w: FakeState, id: string)
    requires SameContents(c, p, disk, w) && IsSafeSegment(id)
    ensures !IsObstructed(disk, FlatPath(p, id))
  {
    assert SameContent(c, id, Opened(disk, FlatPath(p, id)), ContentsAt(w, id));
  }

  /** A content file that a write does not name is read as before. */
  lemma OtherIsRead(p: Project, disk: Disk, text: string, id: string, content: Option<string>, roadmap: Plan,
                    other: string)
    requires IsDiscovered(p) && IsRoadmapChange(p, roadmap) && id != "" && other != "" && id != other
    requires IsOpen(disk, p.Manifest()) && !IsObstructed(disk, FlatPath(p, other))
    requires roadmap != [] ==> IsOpen(disk, roadmap[0].path)
    ensures Opened(After(disk, ThreeFiles(p, text, FlatPath(p, id), content, roadmap)), FlatPath(p, other))
            == Opened(disk, FlatPath(p, other))
  {
    FlatIsApart(p, other);
    if FlatPath(p, other) == FlatPath(p, id) {
      FlatIsInjective(p, other, id);
    }
    PlanKeepsOthers(p, disk, text, FlatPath(p, id), content, roadmap, FlatPath(p, other));
    FlatAreApart(p, id, other);
    OtherStaysClear(p, disk, text, id, content, roadmap, FlatPath(p, other));
  }

  lemma FlatAreApart(p: Project, id: string, other: string)
    ensures AtomicLaws.AreApart(FlatPath(p, id), FlatPath(p, other))
  {
    assert |FlatPath(p, id)| == |FlatPath(p, other)|;
  }

  lemma OtherStaysClear(p: Project, disk: Disk, text: string, id: string, content: Option<string>, roadmap: Plan,
                        path: Path)
    requires |roadmap| <= 1 && IsOpen(disk, p.Manifest()) && !IsObstructed(disk, path)
    requires AtomicLaws.AreApart(FlatPath(p, id), path)
    requires roadmap != [] ==> IsOpen(disk, roadmap[0].path)
    ensures !IsObstructed(After(disk, ThreeFiles(p, text, FlatPath(p, id), content, roadmap)), path)
  {
    var plan := ThreeFiles(p, text, FlatPath(p, id), content, roadmap);
    AtomicLaws.FileIsApart(disk, p.Manifest(), path);
    if roadmap != [] {
      AtomicLaws.FileIsApart(disk, roadmap[0].path, path);
    }
    assert forall i :: 0 <= i < |plan| ==>
      plan[i].path == p.Manifest() || plan[i].path == FlatPath(p, id)
      || (roadmap != [] && plan[i].path == roadmap[0].path);
    assert plan[..|plan|] == plan;
    AtomicLaws.ApartStaysClear(disk, plan, |plan|, path);
  }

  /** What both writers do once a plan is applied. */
  lemma ContentsStayRelated(c: Codec, p: Project, disk: Disk, w: FakeState, text: string, id: string,
                            content: Option<string>, f: Option<Fields>, roadmap: Plan, after: FakeState)
    requires IsDiscovered(p) && IsRoadmapChange(p, roadmap) && IsSafeSegment(id)
    requires IsOpen(disk, p.Manifest()) && (roadmap != [] ==> IsOpen(disk, roadmap[0].path))
    requires '\r' !in text && (content.Some? ==> '\r' !in content.value)
    requires SameContents(c, p, disk, w) && SameWrite(c, id, content, f)
    requires after.contents == Stored(w.contents, id, f)
    ensures SameContents(c, p, After(disk, ThreeFiles(p, text, FlatPath(p, id), content, roadmap)), after)
  {
    var written := After(disk, ThreeFiles(p, text, FlatPath(p, id), content, roadmap));
    forall other | IsSafeSegment(other)
      ensures SameContent(c, other, Opened(written, FlatPath(p, other)), ContentsAt(after, other))
    {
      FlatIsClear(c, p, disk, w, other);
      if other == id {
        FlatIsApart(p, id);
        PlanLands(p, disk, text, FlatPath(p, id), content, roadmap);
        PlanIsClear(p, disk, text, FlatPath(p, id), content, roadmap);
        PlanIsRead(p, disk, text, FlatPath(p, id), content, roadmap);
      } else {
        OtherIsRead(p, disk, text, id, content, roadmap, other);
        assert SameContent(c, other, Opened(disk, FlatPath(p, other)), ContentsAt(w, other));
      }
    }
  }

  // ---- The two roadmaps ---------------------------------------------------------------

  /** The roadmap and a content file are in nobody's way. */
  lemma RoadmapIsApart(p: Project, id: string)
    requires IsDiscovered(p) && p.roadmap.Some? && id != ""
    ensures AtomicLaws.AreApart(FlatPath(p, id), p.roadmap.value)
  {
    var i :| 0 <= i < |ROADMAP_LOCATIONS| && p.roadmap.value == p.root + ROADMAP_LOCATIONS[i];
    var n, flat, roadmap := |p.root|, FlatPath(p, id), p.roadmap.value;
    assert flat[n] == "docs" && flat[n + 1] == "planning" && flat[n + 2] == "tickets";
    assert roadmap[|roadmap| - 1] == "ROADMAP.md" && n < |roadmap| <= n + 3;
    assert "ROADMAP.md"[0] != "docs"[0] && "ROADMAP.md"[0] != "planning"[0] && "ROADMAP.md"[0] != "tickets"[0];
  }

  lemma RoadmapStaysUnread(p: Project, disk: Disk, text: string, id: string, content: Option<string>)
    requires IsDiscovered(p) && id != "" && p.roadmap.Some? && RoadmapText(p, disk).None?
    ensures RoadmapText(p, After(disk, ThreeFiles(p, text, FlatPath(p, id), content, []))).None?
  {
    var path, flat := p.roadmap.value, FlatPath(p, id);
    var after := After(disk, ThreeFiles(p, text, flat, content, []));
    FlatIsApart(p, id);
    RoadmapIsNoContent(p, p.Manifest());
    RoadmapIsApart(p, id);
    PlanKeepsOthers(p, disk, text, flat, content, [], path);
    PlanLands(p, disk, text, flat, content, []);
    forall q | q in disk && !AtomicLaws.AreApart(q, path) ensures q in after {
      if q == p.Manifest() {
        assert FileAt(after, q).Some?;
      } else {
        PlanKeepsOthers(p, disk, text, flat, content, [], q);
      }
    }
    UnreadStaysUnread(disk, after, path);
  }

  function TextRead(text: Option<string>): Option<string> {
    if text.Some? then Some(Newlines.Universal(text.value)) else None
  }

  /** Both writers rewrite the roadmap alike; on disk it is read back. */
  lemma RoadmapsStayRelated(p: Project, disk: Disk, roadmap: Option<string>, text: string, fakeText: string,
                            id: string, content: Option<string>, change: RoadmapTransform)
    requires IsDiscovered(p) && id != "" && p.roadmap.Some? && RoadmapText(p, disk) == roadmap
    requires IsOpen(disk, p.Manifest()) && !IsObstructed(disk, FlatPath(p, id))
    ensures
      var onDisk := ThreeFiles(p, text, FlatPath(p, id), content, RoadmapChange(p.roadmap, roadmap, change));
      var fake := ThreeFiles(p, fakeText, FlatPath(p, id), content, RoadmapChange(p.roadmap, roadmap, change));
      RoadmapText(p, After(disk, onDisk)) == TextRead(RoadmapAfter(p.roadmap, roadmap, fake))
  {
    RoadmapChangeIs(p, roadmap, change);
    RoadmapAfterPlan(p, roadmap, fakeText, id, content, RoadmapChange(p.roadmap, roadmap, change));
    if roadmap.None? {
      RoadmapStaysUnread(p, disk, text, id, content);
    } else {
      FlatIsApart(p, id);
      RoadmapAfterPlanIs(p, disk, text, FlatPath(p, id), content, change);
    }
  }

  lemma RoadmapAfterPlan(p: Project, roadmap: Option<string>, text: string, id: string, content: Option<string>,
                         changes: Plan)
    requires IsDiscovered(p) && id != "" && p.roadmap.Some? && IsRoadmapChange(p, changes)
    ensures RoadmapAfter(p.roadmap, roadmap, ThreeFiles(p, text, FlatPath(p, id), content, changes))
            == if changes == [] then roadmap else changes[0].newText
  {
    FlatIsApart(p, id);
    RoadmapIsNoContent(p, p.Manifest());
    SkipTwo(p.roadmap.value, roadmap, PlannedChange(p.Manifest(), Some(text)), PlannedChange(FlatPath(p, id), content),
            changes);
  }

  lemma SkipTwo(path: Path, roadmap: Option<string>, a: PlannedChange, b: PlannedChange, rest: Plan)
    requires a.path != path && b.path != path
    ensures RoadmapAfter(Some(path), roadmap, [a, b] + rest) == RoadmapAfter(Some(path), roadmap, rest)
  {
    assert ([a, b] + rest)[1..] == [b] + rest;
    assert ([b] + rest)[1..] == rest;
  }

  /** A transform brings a `"\r"` in exactly where `PutsReturn` says so. */
  lemma ReturnIsPut(p: Project, roadmap: Option<string>, change: RoadmapTransform)
    requires p.roadmap.Some? && (roadmap.Some? ==> '\r' !in roadmap.value)
    requires change.CreateInRoadmap? ==> MatchesIdPattern(change.draft.id)
    ensures
      var changes := RoadmapChange(p.roadmap, roadmap, change);
      var left := if changes == [] then roadmap else changes[0].newText;
      (left.Some? && '\r' in left.value) <==> PutsReturn(p, roadmap, change)
  {
    if roadmap.Some? {
      match change {
        case CreateInRoadmap(d) => RoadmapOnDisk.CreateHolds(roadmap.value, d.edit.milestone, d.id, d.edit.title);
        case EditInRoadmap(id, e) => RoadmapOnDisk.EditHolds(roadmap.value, id, e.milestone, e.title);
        case DeleteInRoadmap(id) => RoadmapOnDisk.DeleteKeepsLines(roadmap.value, id);
      }
    }
  }

  /** The plan both writers make for one ticket, up to the manifest's own text. */
  function FlatPlan(p: Project, text: string, id: string, content: Option<string>, roadmap: Option<string>,
                    change: RoadmapTransform): Plan
  {
    ThreeFiles(p, text, FlatPath(p, id), content, RoadmapChange(p.roadmap, roadmap, change))
  }

  /** The in-memory state once the write is in. */
  function FakeAfter(p: Project, w: FakeState, tickets: seq<Dict>, text: string, id: string, content: Option<string>,
                     f: Option<Fields>, change: RoadmapTransform): FakeState
  {
    FakeState(tickets, Stored(w.contents, id, f),
              RoadmapAfter(p.roadmap, w.roadmap, FlatPlan(p, text, id, content, w.roadmap, change)), w.states)
  }

  lemma StaysRelated(c: Codec, p: Project, disk: Disk, w: FakeState, tickets: seq<Dict>, text: string, fakeText: string,
                     id: string, content: Option<string>, f: Option<Fields>, change: RoadmapTransform)
    requires IsDiscovered(p) && SameTickets(c, p, disk, w) && IsSafeSegment(id)
    requires '\r' !in text && (content.Some? ==> '\r' !in content.value)
    requires AreFlat(tickets) && SameWrite(c, id, content, f)
    requires
      var loaded :=
        LoadManifest(c, After(disk, FlatPlan(p, text, id, content, RoadmapText(p, disk), change)), p.Manifest());
      loaded.Ok? && loaded.value.tickets == tickets
    ensures SameTickets(c, p, After(disk, FlatPlan(p, text, id, content, RoadmapText(p, disk), change)),
                        FakeAfter(p, w, tickets, fakeText, id, content, f, change))
  {
    RoadmapChangeIs(p, RoadmapText(p, disk), change);
    RoadmapChangeIsOpen(p, disk, change);
    ReadIsOpen(disk, p.Manifest());
    ContentsStayRelated(c, p, disk, w, text, id, content, f, RoadmapChange(p.roadmap, RoadmapText(p, disk), change),
                        FakeAfter(p, w, tickets, fakeText, id, content, f, change));
  }

  lemma RoadmapFollows(c: Codec, p: Project, disk: Disk, w: FakeState, tickets: seq<Dict>, text: string,
                       fakeText: string, id: string, content: Option<string>, f: Option<Fields>,
                       change: RoadmapTransform)
    requires IsDiscovered(p) && SameTickets(c, p, disk, w) && SameRoadmap(p, disk, w) && IsSafeSegment(id)
    requires change.CreateInRoadmap? ==> change.draft.id == id
    ensures SameRoadmap(p, After(disk, FlatPlan(p, text, id, content, RoadmapText(p, disk), change)),
                        FakeAfter(p, w, tickets, fakeText, id, content, f, change))
            <==> !PutsReturn(p, w.roadmap, change)
  {
    if p.roadmap.Some? {
      ReadIsOpen(disk, p.Manifest());
      FlatIsClear(c, p, disk, w, id);
      RoadmapsStayRelated(p, disk, w.roadmap, text, fakeText, id, content, change);
      RoadmapAfterPlan(p, w.roadmap, fakeText, id, content, RoadmapChange(p.roadmap, w.roadmap, change));
      RoadmapChangeIs(p, w.roadmap, change);
      NoReturnIsRead(p, disk);
      ReturnIsPut(p, w.roadmap, change);
      var left := FakeAfter(p, w, tickets, fakeText, id, content, f, change).roadmap;
      if left.Some? {
        Newlines.UniversalIsSame(left.value);
      }
    }
  }

  lemma RelatedIsRenderable(c: Codec, p: Project, disk: Disk, w: FakeState, id: string)
    requires IsSafeSegment(id) && SameContents(c, p, disk, w)
    ensures CurrentIsRenderable(w, id)
    ensures !IsUnreadable(disk, FlatPath(p, id))
  {
    assert SameContent(c, id, Opened(disk, FlatPath(p, id)), ContentsAt(w, id));
    if id in w.contents {
      var f := w.contents[id];
      var v := c.loads(Opened(disk, FlatPath(p, id)).value.text).value;
      ParsedContentRendersBack(id, v);
      RenderReadsBack(id, f);
    }
  }

  // ---- Create -------------------------------------------------------------------------

  /** The two ids that are paths. */
  predicate IsDots(id: string) { id == "." || id == ".." }

  /** A create: for every id but the two that are paths, the answers agree, and a refusal
      changes nothing on either side. The roadmaps stay the same exactly when no `"\r"` goes in:
      it is read back from disk as a line break, and stays what it is in memory. */
  lemma CreateSimulates(c: Codec, p: Project, disk: Disk, w: FakeState, d: Draft)
    requires IsJson(c) && IsDiscovered(p) && SameTickets(c, p, disk, w) && !IsDots(d.id)
    ensures
      var onDisk, fake := CreateOutcome(c, p, disk, d), FakeCreate(c, p, w, d);
      && SameTickets(c, p, onDisk.disk, fake.0)
      && SameAnswer(onDisk.answer, fake.1)
      && (onDisk.answer.Fail? ==> onDisk.disk == disk && fake.0 == w)
      && (SameRoadmap(p, disk, w) ==>
           (SameRoadmap(p, onDisk.disk, fake.0) <==>
             onDisk.answer.Fail? || !PutsReturn(p, w.roadmap, CreateInRoadmap(d))))
  {
    if IsSafeSegment(d.id) {
      var document := LoadManifest(c, disk, p.Manifest()).value;
      CreatePlanOf(c, p, disk, d, document);
      RelatedIsRenderable(c, p, disk, w, d.id);
      if FindEntry(document.tickets, d.id).None? && Render(d.id, d.edit.fields).Some? {
        FlatIsClear(c, p, disk, w, d.id);
        CreateReadsBack(c, p, disk, d, document);
        FakeCreateIs(c, p, w, d);
        CreatedStaysRelated(c, p, disk, w, d, document);
      }
    }
  }

  /** The in-memory create, when nothing refuses it. */
  function FakeCreated(c: Codec, p: Project, w: FakeState, d: Draft, content: Value): FakeState {
    var tickets := w.manifest + [CreatedEntry(d)];
    FakeAfter(p, w, tickets, FakeManifestText(c, tickets), d.id, Some(c.dumps(content)), Some(d.edit.fields),
              CreateInRoadmap(d))
  }

  function FakeManifestText(c: Codec, tickets: seq<Dict>): string {
    c.dumps(Obj(Put([("tickets", Null)], "tickets", Arr(Objects(tickets)))))
  }

  lemma FakeCreateIs(c: Codec, p: Project, w: FakeState, d: Draft)
    requires MatchesIdPattern(d.id) && FindEntry(w.manifest, d.id).None?
    requires CurrentIsRenderable(w, d.id) && Render(d.id, d.edit.fields).Some?
    ensures FakeCreate(c, p, w, d)
            == (FakeCreated(c, p, w, d, Render(d.id, d.edit.fields).value),
                Ok(CreatedTicket(d).(content := Some(d.edit.fields))))
  {
    CreatedEntryIs(d);
  }

  lemma CreatedAreFlat(w: FakeState, d: Draft)
    requires AreFlat(w.manifest) && IsSafeSegment(d.id)
    ensures AreFlat(w.manifest + [CreatedEntry(d)])
  {
    CreatedEntryIs(d);
    assert IsFlat(CreatedEntry(d));
  }

  lemma CreatedStaysRelated(c: Codec, p: Project, disk: Disk, w: FakeState, d: Draft, document: Document)
    requires IsJson(c) && IsDiscovered(p) && SameTickets(c, p, disk, w) && IsSafeSegment(d.id)
    requires LoadManifest(c, disk, p.Manifest()) == Ok(document) && FindEntry(document.tickets, d.id).None?
    requires Render(d.id, d.edit.fields).Some?
    ensures
      var content := Render(d.id, d.edit.fields).value;
      var onDisk, fake := After(disk, CreatePlan(c, p, disk, document, d, content)), FakeCreated(c, p, w, d, content);
      && SameTickets(c, p, onDisk, fake)
      && (SameRoadmap(p, disk, w) ==>
           (SameRoadmap(p, onDisk, fake) <==> !PutsReturn(p, w.roadmap, CreateInRoadmap(d))))
  {
    var content := Render(d.id, d.edit.fields).value;
    var tickets := CreatedTickets(document, d);
    FlatIsClear(c, p, disk, w, d.id);
    CreateLands(c, p, disk, d, document, content);
    CreatedAreFlat(w, d);
    ContentReadsBack(c, d.id, d.edit.fields);
    StaysRelated(c, p, disk, w, tickets, c.dumps(Obj(CreatedObject(document, d))), FakeManifestText(c, tickets), d.id,
                 Some(c.dumps(content)), Some(d.edit.fields), CreateInRoadmap(d));
    if SameRoadmap(p, disk, w) {
      RoadmapFollows(c, p, disk, w, tickets, c.dumps(Obj(CreatedObject(document, d))), FakeManifestText(c, tickets),
                     d.id, Some(c.dumps(content)), Some(d.edit.fields), CreateInRoadmap(d));
    }
  }

  // ---- Edit ---------------------------------------------------------------------------

  /** When the in-memory edit goes through, and with what. */
  lemma FakeEditIs(c: Codec, p: Project, w: FakeState, id: string, e: Edit, i: nat)
    requires IsJson(c) && IsDiscovered(p) && IsSafeSegment(id) && FindEntry(w.manifest, id) == Some(i)
    requires AreFlat(w.manifest) && IsDict(w.manifest[i]) && CurrentIsRenderable(w, id)
    ensures FakeEdit(c, p, w, id, e) ==
      if Render(id, e.fields).None? then (w, Fail(TicketInvalid))
      else if StateOf(w, id) !in Gate.MUTABLE_STATES then (w, Fail(TicketNotMutable))
      else (FakeEdited(c, p, w, id, e, i, Render(id, e.fields).value),
            Ok(EditedTicket(id, StatusOf(w.manifest[i]), e).(content := Some(e.fields))))
  {
    assert IsFlat(w.manifest[i]);
    FlatEntryResolves(c, p, w.manifest[i], id);
    FlatSegments(id);
    FlatHasSuffix(p, id);
    ReadableIsEditable(w.manifest[i]);
    MergedStub(w.manifest[i], e);
  }

  lemma FlatSegments(id: string)
    requires IsSafeSegment(id)
    ensures ParsePath(FlatText(id)).segments == FlatBelow(id)
  {
    assert forall i :: 0 <= i < |FlatBelow(id)| ==> IsPlain(FlatBelow(id)[i]);
    Lines.SplitJoin(FlatBelow(id), '/');
    KeptIsAll(FlatBelow(id));
  }

  function FakeEdited(c: Codec, p: Project, w: FakeState, id: string, e: Edit, i: nat, content: Value): FakeState
    requires i < |w.manifest|
  {
    var tickets := w.manifest[i := MergeEdit(w.manifest[i], e)];
    FakeAfter(p, w, tickets, FakeManifestText(c, tickets), id, Some(c.dumps(content)), Some(e.fields),
              EditInRoadmap(id, e))
  }

  lemma ReadableIsEditable(entry: Dict)
    requires StubOf(entry).Some?
    ensures IsEditable(entry) && EntryId(entry).Some? && MatchesIdPattern(EntryId(entry).value)
  {
  }

  /** An entry keeps what makes it flat through an edit. */
  lemma MergedIsFlat(entry: Dict, e: Edit)
    requires IsFlat(entry) && IsDict(entry)
    ensures IsFlat(MergeEdit(entry, e))
  {
    ReadableIsEditable(entry);
    MergedStub(entry, e);
    EditedEntryKeepsRest(entry, e, "id");
    EditedEntryKeepsRest(entry, e, "path");
  }

  /** When the production edit of a flat entry is planned, and what it plans. */
  lemma FlatEditIs(c: Codec, p: Project, disk: Disk, w: FakeState, id: string, e: Edit, x: EditPlan)
    requires IsJson(c) && IsDiscovered(p) && SameTickets(c, p, disk, w) && IsSafeSegment(id)
    requires LoadManifest(c, disk, p.Manifest()) == Ok(x.document) && FindEntry(w.manifest, id) == Some(x.index)
    requires x.path == FlatPath(p, id) && Render(id, e.fields) == Some(x.content)
    ensures IsEditPlan(c, p, disk, id, e, x)
    ensures RenderEdit(c, p, disk, id, e) == Ok(PlanOfEdit(c, p, disk, id, e, x))
  {
    assert IsFlat(w.manifest[x.index]);
    FlatEntryResolves(c, p, w.manifest[x.index], id);
    FlatHasSuffix(p, id);
    RelatedIsRenderable(c, p, disk, w, id);
  }

  lemma FlatEditRefusesInvalid(c: Codec, p: Project, disk: Disk, w: FakeState, id: string, e: Edit)
    requires IsJson(c) && IsDiscovered(p) && SameTickets(c, p, disk, w) && IsSafeSegment(id)
    requires FindEntry(w.manifest, id).Some? && Render(id, e.fields).None?
    ensures RenderEdit(c, p, disk, id, e) == Fail(TicketInvalid)
  {
    var entry := w.manifest[FindEntry(w.manifest, id).value];
    assert IsFlat(entry);
    FlatEntryResolves(c, p, entry, id);
    FlatHasSuffix(p, id);
    RelatedIsRenderable(c, p, disk, w, id);
  }

  /** The production edit of a flat entry, done. */
  lemma FlatEditReadsBack(c: Codec, p: Project, disk: Disk, w: FakeState, state: RunStates.RunState, id: string,
                          e: Edit, x: EditPlan)
    requires IsJson(c) && IsDiscovered(p) && AreFlat(w.manifest) && x.document.tickets == w.manifest
    requires IsEditPlan(c, p, disk, id, e, x) && x.path == FlatPath(p, id) && state in Gate.MUTABLE_STATES
    requires RenderEdit(c, p, disk, id, e) == Ok(PlanOfEdit(c, p, disk, id, e, x))
    ensures EditOutcome(c, p, disk, state, id, e)
            == Outcome(After(disk, PlanOfEdit(c, p, disk, id, e, x)),
                       Ok(EditedTicket(id, StatusOf(x.document.tickets[x.index]), e)))
  {
    FlatIsApart(p, id);
    FlatIsSafe(p, id);
    FlatAreReadable(w.manifest, x.index);
    EditReadsBack(c, p, disk, state, id, e);
  }

  lemma FlatAreReadable(tickets: seq<Dict>, i: nat)
    requires AreFlat(tickets) && i < |tickets|
    ensures AllReadable(tickets) && ReadableOnceEdited(tickets, i)
  {
    forall k | 0 <= k < |tickets| ensures StubOf(tickets[k]).Some? {
      assert IsFlat(tickets[k]);
    }
    ReadableIsEditable(tickets[i]);
  }

  lemma EditedManifestAfter(c: Codec, p: Project, disk: Disk, id: string, e: Edit, x: EditPlan)
    requires IsJson(c) && IsDiscovered(p) && IsEditPlan(c, p, disk, id, e, x) && x.path == FlatPath(p, id)
    ensures LoadManifest(c, After(disk, PlanOfEdit(c, p, disk, id, e, x)), p.Manifest())
            == Ok(Document(EditedObject(x, e), EditedTickets(x, e)))
  {
    FlatIsApart(p, id);
    EditLands(c, p, disk, id, e, x);
    EditedManifest(c, p, disk, After(disk, PlanOfEdit(c, p, disk, id, e, x)), id, e, x);
  }

  lemma EditedAreFlat(tickets: seq<Dict>, i: nat, e: Edit)
    requires AreFlat(tickets) && i < |tickets| && IsDict(tickets[i])
    ensures AreFlat(tickets[i := MergeEdit(tickets[i], e)])
  {
    MergedIsFlat(tickets[i], e);
  }

  lemma EditedStaysRelated(c: Codec, p: Project, disk: Disk, w: FakeState, id: string, e: Edit, x: EditPlan)
    requires IsJson(c) && IsDiscovered(p) && SameTickets(c, p, disk, w) && IsSafeSegment(id)
    requires IsEditPlan(c, p, disk, id, e, x) && x.path == FlatPath(p, id) && x.document.tickets == w.manifest
    requires IsDict(w.manifest[x.index])
    ensures
      var onDisk, fake := After(disk, PlanOfEdit(c, p, disk, id, e, x)), FakeEdited(c, p, w, id, e, x.index, x.content);
      && SameTickets(c, p, onDisk, fake)
      && (SameRoadmap(p, disk, w) ==>
           (SameRoadmap(p, onDisk, fake) <==> !PutsReturn(p, w.roadmap, EditInRoadmap(id, e))))
  {
    EditedManifestAfter(c, p, disk, id, e, x);
    EditedAreFlat(w.manifest, x.index, e);
    ContentReadsBack(c, id, e.fields);
    StaysRelated(c, p, disk, w, EditedTickets(x, e), c.dumps(Obj(EditedObject(x, e))),
                 FakeManifestText(c, EditedTickets(x, e)), id, Some(c.dumps(x.content)), Some(e.fields),
                 EditInRoadmap(id, e));
    if SameRoadmap(p, disk, w) {
      RoadmapFollows(c, p, disk, w, EditedTickets(x, e), c.dumps(Obj(EditedObject(x, e))),
                     FakeManifestText(c, EditedTickets(x, e)), id, Some(c.dumps(x.content)), Some(e.fields),
                     EditInRoadmap(id, e));
    }
  }

  /** An edit: the answers agree where the run state allows it; where it does not, both
      refuse, and name the same reason exactly when the in-memory writer, which looks at the
      run state last, has no other: the ticket is known and the fields can be stored. The
      roadmaps stay the same exactly when no `"\r"` goes in. */
  lemma EditSimulates(c: Codec, p: Project, disk: Disk, w: FakeState, id: string, e: Edit)
    requires IsJson(c) && IsDiscovered(p) && SameTickets(c, p, disk, w) && !IsDots(id)
    ensures
      var onDisk, fake := EditOutcome(c, p, disk, StateOf(w, id), id, e), FakeEdit(c, p, w, id, e);
      && SameTickets(c, p, onDisk.disk, fake.0)
      && (SameAnswer(onDisk.answer, fake.1) <==>
           StateOf(w, id) in Gate.MUTABLE_STATES || (FindEntry(w.manifest, id).Some? && IsStorable(e.fields)))
      && (onDisk.answer.Fail? <==> fake.1.Fail?)
      && (onDisk.answer.Fail? ==> onDisk.disk == disk && fake.0 == w)
      && (SameRoadmap(p, disk, w) ==>
           (SameRoadmap(p, onDisk.disk, fake.0) <==>
             onDisk.answer.Fail? || !PutsReturn(p, w.roadmap, EditInRoadmap(id, e))))
  {
    if FindEntry(w.manifest, id).Some? {
      KnownIsSafe(w, id);
      if StateOf(w, id) in Gate.MUTABLE_STATES {
        EditOfKnownSimulates(c, p, disk, w, id, e, FindEntry(w.manifest, id).value);
      } else {
        ForbiddenEdit(c, p, disk, w, id, e, FindEntry(w.manifest, id).value);
      }
    }
  }

  lemma KnownIsSafe(w: FakeState, id: string)
    requires AreFlat(w.manifest) && FindEntry(w.manifest, id).Some? && !IsDots(id)
    ensures IsSafeSegment(id)
  {
    assert IsFlat(w.manifest[FindEntry(w.manifest, id).value]);
  }

  lemma ForbiddenEdit(c: Codec, p: Project, disk: Disk, w: FakeState, id: string, e: Edit, i: nat)
    requires IsJson(c) && IsDiscovered(p) && SameTickets(c, p, disk, w) && IsSafeSegment(id)
    requires FindEntry(w.manifest, id) == Some(i) && StateOf(w, id) !in Gate.MUTABLE_STATES
    ensures EditOutcome(c, p, disk, StateOf(w, id), id, e) == Outcome(disk, Fail(TicketNotMutable))
    ensures FakeEdit(c, p, w, id, e) == (w, Fail(if IsStorable(e.fields) then TicketNotMutable else TicketInvalid))
  {
    LoadedIsWellFormed(c, disk, p.Manifest());
    RelatedIsRenderable(c, p, disk, w, id);
    FakeEditIs(c, p, w, id, e, i);
    RenderReadsBack(id, e.fields);
  }

  lemma EditOfKnownSimulates(c: Codec, p: Project, disk: Disk, w: FakeState, id: string, e: Edit, i: nat)
    requires IsJson(c) && IsDiscovered(p) && SameTickets(c, p, disk, w) && IsSafeSegment(id)
    requires FindEntry(w.manifest, id) == Some(i) && StateOf(w, id) in Gate.MUTABLE_STATES
    ensures
      var onDisk, fake := EditOutcome(c, p, disk, StateOf(w, id), id, e), FakeEdit(c, p, w, id, e);
      && SameTickets(c, p, onDisk.disk, fake.0)
      && SameAnswer(onDisk.answer, fake.1)
      && (onDisk.answer.Fail? ==> onDisk.disk == disk && fake.0 == w)
      && (SameRoadmap(p, disk, w) ==>
           (SameRoadmap(p, onDisk.disk, fake.0) <==>
             onDisk.answer.Fail? || !PutsReturn(p, w.roadmap, EditInRoadmap(id, e))))
  {
    LoadedIsWellFormed(c, disk, p.Manifest());
    RelatedIsRenderable(c, p, disk, w, id);
    FakeEditIs(c, p, w, id, e, i);
    if Render(id, e.fields).None? {
      FlatEditRefusesInvalid(c, p, disk, w, id, e);
    } else {
      var x := EditPlan(LoadManifest(c, disk, p.Manifest()).value, i, FlatPath(p, id), Render(id, e.fields).value);
      FlatEditIs(c, p, disk, w, id, e, x);
      FlatEditReadsBack(c, p, disk, w, StateOf(w, id), id, e, x);
      EditedStaysRelated(c, p, disk, w, id, e, x);
    }
  }

  // ---- Delete -------------------------------------------------------------------------

  function FakeDeleted(c: Codec, p: Project, w: FakeState, id: string, i: nat): FakeState
    requires i < |w.manifest|
  {
    var tickets := Without(w.manifest, i);
    FakeAfter(p, w, tickets, FakeManifestText(c, tickets), id, None, None, DeleteInRoadmap(id))
  }

  lemma DroppedAreFlat(tickets: seq<Dict>, i: nat)
    requires AreFlat(tickets) && i < |tickets|
    ensures AreFlat(Without(tickets, i))
  {
    var left := Without(tickets, i);
    forall k | 0 <= k < |left| ensures IsFlat(left[k]) {
      assert left[k] == tickets[if k < i then k else k + 1];
    }
  }

  lemma DeletePlanIsFlat(c: Codec, p: Project, disk: Disk, document: Document, i: nat, id: string)
    requires i < |document.tickets|
    ensures DeletePlan(c, p, disk, document, i, id, FlatPath(p, id))
            == FlatPlan(p, c.dumps(Obj(DeletedObject(document, i))), id, None, RoadmapText(p, disk),
                        DeleteInRoadmap(id))
  {
  }

  lemma DeletedStaysRelated(c: Codec, p: Project, disk: Disk, w: FakeState, id: string, document: Document, i: nat)
    requires IsJson(c) && IsDiscovered(p) && SameTickets(c, p, disk, w) && IsFlatEntryAt(c, p, disk, document, i, id)
    ensures
      var onDisk, fake :=
        After(disk, DeletePlan(c, p, disk, document, i, id, FlatPath(p, id))), FakeDeleted(c, p, w, id, i);
      SameTickets(c, p, onDisk, fake) && (SameRoadmap(p, disk, w) ==> SameRoadmap(p, onDisk, fake))
  {
    var tickets := Without(document.tickets, i);
    FlatIsApart(p, id);
    FlatIsEntry(c, p, disk, document, i, id);
    FlatIsClear(c, p, disk, w, id);
    DeletePlanLands(c, p, disk, document, i, id, FlatPath(p, id));
    DroppedAreFlat(document.tickets, i);
    DeletePlanIsFlat(c, p, disk, document, i, id);
    StaysRelated(c, p, disk, w, tickets, c.dumps(Obj(DeletedObject(document, i))), FakeManifestText(c, tickets), id,
                 None, None, DeleteInRoadmap(id));
    if SameRoadmap(p, disk, w) {
      RoadmapFollows(c, p, disk, w, tickets, c.dumps(Obj(DeletedObject(document, i))), FakeManifestText(c, tickets),
                     id, None, None, DeleteInRoadmap(id));
    }
  }

  /** A delete, likewise. */
  lemma DeleteSimulates(c: Codec, p: Project, disk: Disk, w: FakeState, id: string)
    requires IsJson(c) && IsDiscovered(p) && SameTickets(c, p, disk, w) && !IsDots(id)
    ensures
      var onDisk, fake := DeleteOutcome(c, p, disk, StateOf(w, id), id), FakeDelete(c, p, w, id);
      && SameTickets(c, p, onDisk.disk, fake.0)
      && (SameAnswer(onDisk.answer, fake.1) <==>
           StateOf(w, id) in Gate.DELETABLE_STATES || FindEntry(w.manifest, id).Some?)
      && (onDisk.answer.Fail? <==> fake.1.Fail?)
      && (onDisk.answer.Fail? ==> onDisk.disk == disk && fake.0 == w)
      && (SameRoadmap(p, disk, w) ==> SameRoadmap(p, onDisk.disk, fake.0))
  {
    if FindEntry(w.manifest, id).Some? {
      KnownIsSafe(w, id);
      var document := LoadManifest(c, disk, p.Manifest()).value;
      if StateOf(w, id) in Gate.DELETABLE_STATES {
        DeleteOfKnownSimulates(c, p, disk, w, id, document, FindEntry(w.manifest, id).value);
      } else {
        RelatedIsRenderable(c, p, disk, w, id);
      }
    }
  }

  /** The production delete of a flat entry, done. */
  lemma FlatDeleteGoesThrough(c: Codec, p: Project, disk: Disk, w: FakeState, state: RunStates.RunState, id: string,
                              document: Document, i: nat)
    requires IsJson(c) && IsDiscovered(p) && SameTickets(c, p, disk, w) && IsFlatEntryAt(c, p, disk, document, i, id)
    requires state in Gate.DELETABLE_STATES
    ensures DeleteOutcome(c, p, disk, state, id)
            == Outcome(After(disk, DeletePlan(c, p, disk, document, i, id, FlatPath(p, id))),
                       Ok(StubOf(document.tickets[i]).value.(content := NormalOf(ContentsAt(w, id)))))
  {
    FlatIsApart(p, id);
    FlatIsSafe(p, id);
    FlatAreReadable(document.tickets, i);
    FlatIsEntry(c, p, disk, document, i, id);
    assert SameContent(c, id, Opened(disk, FlatPath(p, id)), ContentsAt(w, id));
    DeleteGoesThrough(c, p, disk, document, i, state, id, FlatPath(p, id));
  }

  lemma DeleteOfKnownSimulates(c: Codec, p: Project, disk: Disk, w: FakeState, id: string, document: Document, i: nat)
    requires IsJson(c) && IsDiscovered(p) && SameTickets(c, p, disk, w) && IsSafeSegment(id)
    requires LoadManifest(c, disk, p.Manifest()) == Ok(document) && FindEntry(w.manifest, id) == Some(i)
    requires StateOf(w, id) in Gate.DELETABLE_STATES
    ensures
      var onDisk, fake := DeleteOutcome(c, p, disk, StateOf(w, id), id), FakeDelete(c, p, w, id);
      && SameTickets(c, p, onDisk.disk, fake.0)
      && SameAnswer(onDisk.answer, fake.1) && fake.1.Ok?
      && (SameRoadmap(p, disk, w) ==> SameRoadmap(p, onDisk.disk, fake.0))
  {
    assert IsFlat(w.manifest[i]);
    RelatedIsRenderable(c, p, disk, w, id);
    FlatDeleteGoesThrough(c, p, disk, w, StateOf(w, id), id, document, i);
    DeletedStaysRelated(c, p, disk, w, id, document, i);
  }

  // ---- Whole runs ---------------------------------------------------------------------

  datatype Request = CreateRequest(draft: Draft) | EditRequest(id: string, edit: Edit) | DeleteRequest(id: string)

  function IdOf(r: Request): string {
    match r
    case CreateRequest(d) => d.id
    case EditRequest(id, _) => id
    case DeleteRequest(id) => id
  }

  function OnDisk(c: Codec, p: Project, disk: Disk, states: map<string, RunStates.RunState>, r: Request): Outcome {
    var state := if IdOf(r) in states then states[IdOf(r)] else RunStates.Unknown;
    match r
    case CreateRequest(d) => CreateOutcome(c, p, disk, d)
    case EditRequest(id, e) => EditOutcome(c, p, disk, state, id, e)
    case DeleteRequest(id) => DeleteOutcome(c, p, disk, state, id)
  }

  function InMemory(c: Codec, p: Project, w: FakeState, r: Request): (FakeState, Answer) {
    match r
    case CreateRequest(d) => FakeCreate(c, p, w, d)
    case EditRequest(id, e) => FakeEdit(c, p, w, id, e)
    case DeleteRequest(id) => FakeDelete(c, p, w, id)
  }

  function DiskAfter(c: Codec, p: Project, disk: Disk, states: map<string, RunStates.RunState>, requests: seq<Request>)
    : Disk
    decreases |requests|
  {
    if requests == [] then disk
    else DiskAfter(c, p, OnDisk(c, p, disk, states, requests[0]).disk, states, requests[1..])
  }

  function MemoryAfter(c: Codec, p: Project, w: FakeState, requests: seq<Request>): FakeState
    decreases |requests|
  {
    if requests == [] then w else MemoryAfter(c, p, InMemory(c, p, w, requests[0]).0, requests[1..])
  }

  predicate IsPermitted(w: FakeState, r: Request) {
    match r
    case CreateRequest(_) => true
    case EditRequest(id, _) => StateOf(w, id) in Gate.MUTABLE_STATES
    case DeleteRequest(id) => StateOf(w, id) in Gate.DELETABLE_STATES
  }

  /** Along the run, permitted requests get the same answer from both, and the others are
      refused by both. */
  ghost predicate RunAgrees(c: Codec, p: Project, disk: Disk, w: FakeState, requests: seq<Request>)
    decreases |requests|
  {
    requests == []
    || (var onDisk, fake := OnDisk(c, p, disk, w.states, requests[0]), InMemory(c, p, w, requests[0]);
        && (if IsPermitted(w, requests[0]) then SameAnswer(onDisk.answer, fake.1)
            else onDisk.answer.Fail? && fake.1.Fail?)
        && RunAgrees(c, p, onDisk.disk, fake.0, requests[1..]))
  }

  /** No title of the request holds a `"\r"`. */
  predicate HasNoReturn(r: Request) {
    match r
    case CreateRequest(d) => '\r' !in d.edit.title
    case EditRequest(_, e) => '\r' !in e.title
    case DeleteRequest(_) => true
  }

  /** Any run of requests gets the same answers throughout and leaves the two writers with the
      same tickets, so unique ids stay unique in both; and with the same roadmap, when they
      began so and no title holds a `"\r"`. */
  lemma {:induction false} RunsSimulate(c: Codec, p: Project, disk: Disk, w: FakeState, requests: seq<Request>)
    requires IsJson(c) && IsDiscovered(p) && SameTickets(c, p, disk, w)
    requires forall r :: r in requests ==> !IsDots(IdOf(r))
    ensures RunAgrees(c, p, disk, w, requests)
    ensures SameTickets(c, p, DiskAfter(c, p, disk, w.states, requests), MemoryAfter(c, p, w, requests))
    ensures UniqueIds(MemoryAfter(c, p, w, requests).manifest)
    ensures SameRoadmap(p, disk, w) && (forall r :: r in requests ==> HasNoReturn(r)) ==>
              SameRoadmap(p, DiskAfter(c, p, disk, w.states, requests), MemoryAfter(c, p, w, requests))
    decreases |requests|
  {
    if requests != [] {
      var r := requests[0];
      assert r in requests;
      StepSimulates(c, p, disk, w, r);
      RunsSimulate(c, p, OnDisk(c, p, disk, w.states, r).disk, InMemory(c, p, w, r).0, requests[1..]);
    }
  }

  /** The two writers after one request, and what they answered. */
  ghost predicate StepAgrees(p: Project, c: Codec, disk: Disk, w: FakeState, r: Request,
                             onDisk: Outcome, fake: FakeState, answer: Answer) {
    && SameTickets(c, p, onDisk.disk, fake) && fake.states == w.states
    && (if IsPermitted(w, r) then SameAnswer(onDisk.answer, answer) else onDisk.answer.Fail? && answer.Fail?)
    && (SameRoadmap(p, disk, w) && HasNoReturn(r) ==> SameRoadmap(p, onDisk.disk, fake))
  }

  lemma CreateStep(c: Codec, p: Project, disk: Disk, w: FakeState, d: Draft)
    requires IsJson(c) && IsDiscovered(p) && SameTickets(c, p, disk, w) && !IsDots(d.id)
    ensures
      var fake := FakeCreate(c, p, w, d);
      StepAgrees(p, c, disk, w, CreateRequest(d), CreateOutcome(c, p, disk, d), fake.0, fake.1)
  {
    CreateSimulates(c, p, disk, w, d);
  }

  lemma EditStep(c: Codec, p: Project, disk: Disk, w: FakeState, id: string, e: Edit)
    requires IsJson(c) && IsDiscovered(p) && SameTickets(c, p, disk, w) && !IsDots(id)
    ensures
      var fake := FakeEdit(c, p, w, id, e);
      StepAgrees(p, c, disk, w, EditRequest(id, e), EditOutcome(c, p, disk, StateOf(w, id), id, e), fake.0, fake.1)
  {
    EditSimulates(c, p, disk, w, id, e);
  }

  lemma DeleteStep(c: Codec, p: Project, disk: Disk, w: FakeState, id: string)
    requires IsJson(c) && IsDiscovered(p) && SameTickets(c, p, disk, w) && !IsDots(id)
    ensures
      var fake := FakeDelete(c, p, w, id);
      StepAgrees(p, c, disk, w, DeleteRequest(id), DeleteOutcome(c, p, disk, StateOf(w, id), id), fake.0, fake.1)
  {
    DeleteSimulates(c, p, disk, w, id);
  }

  lemma StepSimulates(c: Codec, p: Project, disk: Disk, w: FakeState, r: Request)
    requires IsJson(c) && IsDiscovered(p) && SameTickets(c, p, disk, w) && !IsDots(IdOf(r))
    ensures
      var fake := InMemory(c, p, w, r);
      StepAgrees(p, c, disk, w, r, OnDisk(c, p, disk, w.states, r), fake.0, fake.1)
  {
    match r {
      case CreateRequest(d) => CreateStep(c, p, disk, w, d);
      case EditRequest(id, e) => EditStep(c, p, disk, w, id, e);
      case DeleteRequest(id) => DeleteStep(c, p, disk, w, id);
    }
  }

  // ---- Where the two writers differ ---------------------------------------------------

  /** The in-memory roadmap after a write, as a text. */
  lemma MemoryRoadmap(p: Project, w: FakeState, tickets: seq<Dict>, text: string, id: string,
                      content: Option<string>, f: Option<Fields>, change: RoadmapTransform, current: string)
    requires IsDiscovered(p) && id != "" && p.roadmap.Some? && w.roadmap == Some(current)
    ensures FakeAfter(p, w, tickets, text, id, content, f, change).roadmap
            == Some(RoadmapLaws.Applied(current, Transformed(change, current)))
  {
    RoadmapChangeIs(p, w.roadmap, change);
    RoadmapAfterPlan(p, w.roadmap, text, id, content, RoadmapChange(p.roadmap, w.roadmap, change));
  }

  lemma CreatedRoadmap(c: Codec, p: Project, w: FakeState, d: Draft, current: string)
    requires IsDiscovered(p) && p.roadmap.Some? && w.roadmap == Some(current) && IsSafeSegment(d.id)
    requires FakeCreate(c, p, w, d).1.Ok?
    ensures
      var created := FakeCreate(c, p, w, d).0;
      && created.roadmap == Some(RoadmapLaws.Applied(current, Transformed(CreateInRoadmap(d), current)))
      && FindEntry(created.manifest, d.id).Some? && created.states == w.states
  {
    var content := Render(d.id, d.edit.fields).value;
    var tickets := w.manifest + [CreatedEntry(d)];
    FakeCreateIs(c, p, w, d);
    MemoryRoadmap(p, w, tickets, FakeManifestText(c, tickets), d.id, Some(c.dumps(content)), Some(d.edit.fields),
                  CreateInRoadmap(d), current);
    CreatedEntryIs(d);
    assert tickets[|w.manifest|] == CreatedEntry(d);
  }

  lemma DeletedRoadmap(c: Codec, p: Project, disk: Disk, w: FakeState, id: string, current: string)
    requires IsDiscovered(p) && p.roadmap.Some? && w.roadmap == Some(current) && IsSafeSegment(id)
    requires SameTickets(c, p, disk, w) && StateOf(w, id) in Gate.DELETABLE_STATES
    requires FindEntry(w.manifest, id).Some?
    ensures FakeDelete(c, p, w, id).0.roadmap
            == Some(RoadmapLaws.Applied(current, Transformed(DeleteInRoadmap(id), current)))
  {
    var i := FindEntry(w.manifest, id).value;
    var left := Without(w.manifest, i);
    RelatedIsRenderable(c, p, disk, w, id);
    FakeDeleteIs(c, p, w, id, i);
    MemoryRoadmap(p, w, left, FakeManifestText(c, left), id, None, None, DeleteInRoadmap(id), current);
  }

  lemma FakeUndoes(c: Codec, p: Project, disk: Disk, w: FakeState, created: FakeState, d: Draft, current: string)
    requires IsDiscovered(p) && p.roadmap.Some? && w.roadmap == Some(current) && IsSafeSegment(d.id)
    requires RoadmapLaws.NoneCarries(Lines.Split(current), d.id) && RoadmapLaws.HasDigit(d.id)
    requires '\n' !in d.edit.title && FakeCreate(c, p, w, d).1.Ok? && created == FakeCreate(c, p, w, d).0
    requires SameTickets(c, p, disk, created) && StateOf(w, d.id) in Gate.DELETABLE_STATES
    ensures FakeDelete(c, p, created, d.id).0.roadmap == Some(current)
  {
    CreatedRoadmap(c, p, w, d, current);
    DeletedRoadmap(c, p, disk, created, d.id, created.roadmap.value);
    TransformsUndo(current, d);
  }

  lemma TransformsUndo(current: string, d: Draft)
    requires MatchesIdPattern(d.id) && '\n' !in d.edit.title
    requires RoadmapLaws.NoneCarries(Lines.Split(current), d.id) && RoadmapLaws.HasDigit(d.id)
    ensures
      var middle := RoadmapLaws.Applied(current, Transformed(CreateInRoadmap(d), current));
      RoadmapLaws.Applied(middle, Transformed(DeleteInRoadmap(d.id), middle)) == current
  {
    RoadmapLaws.CreateThenDeleteRestores(current, d.edit.milestone, d.id, d.edit.title);
  }

  lemma FakeDeleteIs(c: Codec, p: Project, w: FakeState, id: string, i: nat)
    requires MatchesIdPattern(id) && FindEntry(w.manifest, id) == Some(i) && CurrentIsRenderable(w, id)
    requires StateOf(w, id) in Gate.DELETABLE_STATES
    ensures FakeDelete(c, p, w, id).0 == FakeDeleted(c, p, w, id, i)
  {
  }

  lemma ReturnIsUndoneInMemory(c: Codec, p: Project, disk: Disk, w: FakeState, created: FakeState, d: Draft,
                               current: string)
    requires IsDiscovered(p) && p.roadmap.Some? && w.roadmap == Some(current) && IsSafeSegment(d.id)
    requires RoadmapLaws.NoneCarries(Lines.Split(current), d.id) && RoadmapLaws.HasDigit(d.id)
    requires d.edit.title == "a\rb" && FakeCreate(c, p, w, d).1.Ok? && created == FakeCreate(c, p, w, d).0
    requires SameTickets(c, p, disk, created) && StateOf(w, d.id) in Gate.DELETABLE_STATES
    ensures FakeDelete(c, p, created, d.id).0.roadmap == Some(current)
  {
    assert '\n' !in d.edit.title;
    FakeUndoes(c, p, disk, w, created, d, current);
  }

  /** A title with a `"\r"` drives the roadmaps apart for good: creating `"a\rb"` and deleting it
      again gives back the in-memory roadmap, and leaves a line in the one on disk. */
  lemma ReturnDiverges(c: Codec, p: Project, disk: Disk, w: FakeState, d: Draft, current: string)
    requires IsJson(c) && IsDiscovered(p) && SameTickets(c, p, disk, w) && SameRoadmap(p, disk, w)
    requires RoadmapText(p, disk) == Some(current) && RoadmapLaws.NoneCarries(Lines.Split(current), d.id)
    requires RoadmapLaws.SectionExists(Lines.Split(current), d.edit.milestone) && RoadmapLaws.HasDigit(d.id)
    requires d.edit.title == "a\rb" && StateOf(w, d.id) in Gate.DELETABLE_STATES
    requires IsSafeSegment(d.id) && FakeCreate(c, p, w, d).1.Ok?
    ensures
      var created, fake := CreateOutcome(c, p, disk, d).disk, FakeCreate(c, p, w, d).0;
      && FakeDelete(c, p, fake, d.id).0.roadmap == Some(current)
      && RoadmapText(p, DeleteOutcome(c, p, created, StateOf(w, d.id), d.id).disk) != Some(current)
  {
    CreateSimulates(c, p, disk, w, d);
    var created, fake := CreateOutcome(c, p, disk, d), FakeCreate(c, p, w, d).0;
    ReturnIsNotUndone(c, p, disk, d, StateOf(w, d.id), current);
    ReturnIsUndoneInMemory(c, p, created.disk, w, fake, d, current);
  }

  /** The production writer refuses to create `.` and `..`; the in-memory one, which looks at
      the pattern alone, does not. They agree on a create exactly for every other id. */
  lemma DotsDiverge(c: Codec, p: Project, disk: Disk, w: FakeState, d: Draft)
    requires IsJson(c) && IsDiscovered(p) && SameTickets(c, p, disk, w)
    ensures SameAnswer(CreateOutcome(c, p, disk, d).answer, FakeCreate(c, p, w, d).1) <==> !IsDots(d.id)
  {
    if !IsDots(d.id) {
      CreateSimulates(c, p, disk, w, d);
    }
  }

  /** Likewise a permitted edit, exactly when the id is not a path or names no entry. */
  lemma DotsDivergeOnEdit(c: Codec, p: Project, disk: Disk, w: FakeState, id: string, e: Edit)
    requires IsJson(c) && IsDiscovered(p) && SameTickets(c, p, disk, w) && StateOf(w, id) in Gate.MUTABLE_STATES
    ensures SameAnswer(EditOutcome(c, p, disk, StateOf(w, id), id, e).answer, FakeEdit(c, p, w, id, e).1)
            <==> !IsDots(id) || FindEntry(w.manifest, id).None?
  {
    if !IsDots(id) {
      EditSimulates(c, p, disk, w, id, e);
    } else {
      DotsAreNotEdited(c, p, disk, StateOf(w, id), id, e);
      DotsAreNoTraversal(c, p, w, id, e);
    }
  }

  lemma DotsAreNotEdited(c: Codec, p: Project, disk: Disk, state: RunStates.RunState, id: string, e: Edit)
    requires IsDots(id) && state in Gate.MUTABLE_STATES && LoadManifest(c, disk, p.Manifest()).Ok?
    ensures EditOutcome(c, p, disk, state, id, e) == Outcome(disk, Fail(
      if FindEntry(LoadManifest(c, disk, p.Manifest()).value.tickets, id).None? then UnknownTicket else PathTraversal))
  {
  }

  lemma DotsAreNoTraversal(c: Codec, p: Project, w: FakeState, id: string, e: Edit)
    requires IsDots(id)
    ensures FakeEdit(c, p, w, id, e).1 != Fail(PathTraversal)
    ensures FindEntry(w.manifest, id).None? ==> FakeEdit(c, p, w, id, e).1 == Fail(UnknownTicket)
  {
  }

  /** And a permitted delete. */
  lemma DotsDivergeOnDelete(c: Codec, p: Project, disk: Disk, w: FakeState, id: string)
    requires IsJson(c) && IsDiscovered(p) && SameTickets(c, p, disk, w) && StateOf(w, id) in Gate.DELETABLE_STATES
    ensures SameAnswer(DeleteOutcome(c, p, disk, StateOf(w, id), id).answer, FakeDelete(c, p, w, id).1)
            <==> !IsDots(id) || FindEntry(w.manifest, id).None?
  {
    if !IsDots(id) {
      DeleteSimulates(c, p, disk, w, id);
    }
  }
}
