/** The in-memory writer that stands in for the production one (file_adapter/fake_writer.py). */
module FakeWriter {
  import opened Common
  import opened Json
  import opened Paths
  import opened Project
  import opened TicketIds
  import opened TicketJson
  import opened Manifest
  import opened TicketReader
  import opened WriteRender
  import RunStates
  import Gate = RunStateGate

  datatype FakeState = FakeState(
    manifest: seq<Dict>,
    contents: map<string, Fields>,
    roadmap: Option<string>,
    states: map<string, RunStates.RunState>)

  type Answer = Result<Ticket, WriteError>

  function StateOf(w: FakeState, id: string): RunStates.RunState {
    if id in w.states then w.states[id] else RunStates.Unknown
  }

  // ---- Planning -----------------------------------------------------------------------

  /** `_current_content` renders what is seeded, and so can refuse it. */
  predicate CurrentIsRenderable(w: FakeState, id: string) {
    id in w.contents ==> Render(id, w.contents[id]).Some?
  }

  function FakeManifestChange(c: Codec, p: Project, tickets: seq<Dict>): PlannedChange {
    ManifestChange(c, p, [("tickets", Null)], tickets)
  }

  /** The seeded entry's path, or the one a create would give it. */
  function FakePath(c: Codec, entry: Dict, id: string): PurePath {
    var declared := DeclaredPath(c, entry);
    if declared.Some? then declared.value else ParsePath(RelPosix(FlatBelow(id)))
  }

  /** `_plan_create`. */
  function PlanCreate(c: Codec, p: Project, w: FakeState, d: Draft): Result<Plan, WriteError> {
    if !MatchesIdPattern(d.id) then Fail(PathTraversal)
    else if FindEntry(w.manifest, d.id).Some? then Fail(TicketAlreadyExists)
    else if !CurrentIsRenderable(w, d.id) then Fail(TicketInvalid)
    else match Render(d.id, d.edit.fields)
      case None => Fail(TicketInvalid)
      case Some(content) =>
        Ok([FakeManifestChange(c, p, w.manifest + [DraftEntry(d, RelPosix(FlatBelow(d.id)))]),
            PlannedChange(FlatPath(p, d.id), Some(c.dumps(content)))]
           + RoadmapChange(p.roadmap, w.roadmap, CreateInRoadmap(d)))
  }

  /** `_plan_edit`. */
  function PlanEdit(c: Codec, p: Project, w: FakeState, id: string, e: Edit): (r: Result<Plan, WriteError>)
    ensures r.Ok? ==> FindEntry(w.manifest, id).Some?
  {
    if !MatchesIdPattern(id) then Fail(PathTraversal)
    else
      var index := FindEntry(w.manifest, id);
      if index.None? then Fail(UnknownTicket)
      else
        var entry := w.manifest[index.value];
        var error := FormatError(FakePath(c, entry, id).segments);
        if error.Some? then Fail(error.value)
        else if !CurrentIsRenderable(w, id) then Fail(TicketInvalid)
        else match Render(id, e.fields)
          case None => Fail(TicketInvalid)
          case Some(content) =>
            Ok([FakeManifestChange(c, p, w.manifest[index.value := MergeEdit(entry, e)]),
                PlannedChange(FlatPath(p, id), Some(c.dumps(content)))]
               + RoadmapChange(p.roadmap, w.roadmap, EditInRoadmap(id, e)))
  }

  /** `_plan_delete`. */
  function PlanDelete(c: Codec, p: Project, w: FakeState, id: string): (r: Result<Plan, WriteError>)
    ensures r.Ok? ==> FindEntry(w.manifest, id).Some?
  {
    if !MatchesIdPattern(id) then Fail(PathTraversal)
    else
      var index := FindEntry(w.manifest, id);
      if index.None? then Fail(UnknownTicket)
      else if !CurrentIsRenderable(w, id) then Fail(TicketInvalid)
      else
        Ok([FakeManifestChange(c, p, Without(w.manifest, index.value)),
            PlannedChange(FlatPath(p, id), None)]
           + RoadmapChange(p.roadmap, w.roadmap, DeleteInRoadmap(id)))
  }

  // ---- Applying -----------------------------------------------------------------------

  /** `_apply_roadmap`: the first planned change of the roadmap's path. */
  function RoadmapAfter(roadmap: Option<Path>, current: Option<string>, plan: Plan): Option<string> {
    if roadmap.None? || plan == [] then current
    else if plan[0].path == roadmap.value then plan[0].newText
    else RoadmapAfter(roadmap, current, plan[1..])
  }

  /** `_entry_to_ticket`. */
  function FakeTicket(entry: Dict, content: Option<Fields>): Answer {
    match StubOf(entry)
    case None => Fail(MalformedManifest)
    case Some(stub) => Ok(stub.(content := content))
  }

  /** The `filePath` it publishes: the stub is built without a root, so the entry's declared
      path is not looked at. */
  function FakeFilePath(p: Project, id: string): Path { p.TicketsDir() + [id + ".md"] }

  function FakeCreate(c: Codec, p: Project, w: FakeState, d: Draft): (FakeState, Answer) {
    match PlanCreate(c, p, w, d)
    case Fail(error) => (w, Fail(error))
    case Ok(plan) =>
      var entry := DraftEntry(d, RelPosix(FlatBelow(d.id)));
      (w.(manifest := w.manifest + [entry],
          contents := w.contents[d.id := d.edit.fields],
          roadmap := RoadmapAfter(p.roadmap, w.roadmap, plan)),
       FakeTicket(entry, Some(d.edit.fields)))
  }

  function Replaced(w: FakeState, index: nat, entry: Dict, id: string, f: Fields): FakeState
    requires index < |w.manifest|
  {
    w.(manifest := w.manifest[index := entry], contents := w.contents[id := f])
  }

  function FakeEdit(c: Codec, p: Project, w: FakeState, id: string, e: Edit): (FakeState, Answer) {
    match PlanEdit(c, p, w, id, e)
    case Fail(error) => (w, Fail(error))
    case Ok(plan) =>
      if StateOf(w, id) !in Gate.MUTABLE_STATES then (w, Fail(TicketNotMutable))
      else
        var index := FindEntry(w.manifest, id).value;
        var merged := MergeEdit(w.manifest[index], e);
        (Replaced(w, index, merged, id, e.fields).(roadmap := RoadmapAfter(p.roadmap, w.roadmap, plan)),
         FakeTicket(merged, Some(e.fields)))
  }

  function FakeDelete(c: Codec, p: Project, w: FakeState, id: string): (FakeState, Answer) {
    match PlanDelete(c, p, w, id)
    case Fail(error) => (w, Fail(error))
    case Ok(plan) =>
      if StateOf(w, id) !in Gate.DELETABLE_STATES then (w, Fail(TicketNotMutable))
      else
        var index := FindEntry(w.manifest, id).value;
        var content := if id in w.contents then Some(w.contents[id]) else None;
        (w.(manifest := Without(w.manifest, index),
            contents := w.contents - {id},
            roadmap := RoadmapAfter(p.roadmap, w.roadmap, plan)),
         FakeTicket(w.manifest[index], content))
  }

  class FakeFileWriter {
    var manifest: seq<Dict>
    var contents: map<string, Fields>
    var roadmap: Option<string>
    var runStates: map<string, RunStates.RunState>

    constructor (manifest: seq<Dict>, contents: map<string, Fields>, roadmap: Option<string>,
                 runStates: map<string, RunStates.RunState>)
      ensures State() == FakeState(manifest, contents, roadmap, runStates)
    {
      this.manifest := manifest;
      this.contents := contents;
      this.roadmap := roadmap;
      this.runStates := runStates;
    }

    function State(): FakeState
      reads this
    {
      FakeState(manifest, contents, roadmap, runStates)
    }

    method ApplyRoadmap(p: Project, planned: Plan)
      modifies this`roadmap
      ensures roadmap == RoadmapAfter(p.roadmap, old(roadmap), planned)
    {
      if p.roadmap.None? {
        return;
      }
      for i := 0 to |planned|
        invariant roadmap == old(roadmap)
        invariant RoadmapAfter(p.roadmap, roadmap, planned[i..]) == RoadmapAfter(p.roadmap, roadmap, planned)
      {
        if planned[i].path == p.roadmap.value {
          roadmap := planned[i].newText;
          return;
        }
        assert planned[i..][1..] == planned[i + 1..];
      }
      assert planned[|planned|..] == [];
    }

    method CreateTicket(c: Codec, p: Project, d: Draft) returns (answer: Answer)
      modifies this
      ensures (State(), answer) == FakeCreate(c, p, old(State()), d)
    {
      var planned := PlanCreate(c, p, State(), d);
      if planned.Fail? {
        return Fail(planned.error);
      }
      var entry := DraftEntry(d, RelPosix(FlatBelow(d.id)));
      manifest := manifest + [entry];
      contents := contents[d.id := d.edit.fields];
      ApplyRoadmap(p, planned.value);
      answer := FakeTicket(entry, Some(d.edit.fields));
    }

    method EditTicket(c: Codec, p: Project, id: string, e: Edit) returns (answer: Answer)
      modifies this
      ensures (State(), answer) == FakeEdit(c, p, old(State()), id, e)
    {
      var planned := PlanEdit(c, p, State(), id, e);
      if planned.Fail? {
        return Fail(planned.error);
      }
      if StateOf(State(), id) !in Gate.MUTABLE_STATES {
        return Fail(TicketNotMutable);
      }
      var index := FindEntry(manifest, id).value;
      var merged := MergeEdit(manifest[index], e);
      manifest := manifest[index := merged];
      contents := contents[id := e.fields];
      assert State() == Replaced(old(State()), index, merged, id, e.fields);
      ApplyRoadmap(p, planned.value);
      answer := FakeTicket(merged, Some(e.fields));
    }

    method DeleteTicket(c: Codec, p: Project, id: string) returns (answer: Answer)
      modifies this
      ensures (State(), answer) == FakeDelete(c, p, old(State()), id)
    {
      var planned := PlanDelete(c, p, State(), id);
      if planned.Fail? {
        return Fail(planned.error);
      }
      if StateOf(State(), id) !in Gate.DELETABLE_STATES {
        return Fail(TicketNotMutable);
      }
      var index := FindEntry(manifest, id).value;
      var entry := manifest[index];
      var content := if id in contents then Some(contents[id]) else None;
      manifest := manifest[..index] + manifest[index + 1..];
      contents := contents - {id};
      ApplyRoadmap(p, planned.value);
      answer := FakeTicket(entry, content);
    }
  }
}
