/** The desired text of the three coupled files: the manifest, the ticket's content file and
    the roadmap (file_adapter/write_render.py). */
module WriteRender {
  import opened Common
  import opened Json
  import opened Paths
  import opened Project
  import opened TicketIds
  import opened TicketJson
  import opened Manifest
  import RoadmapEdit

  /** `TicketEdit`: the index fields and the content fields. */
  datatype Edit = Edit(
    title: string,
    track: Option<string>,
    milestone: Option<string>,
    dependsOn: seq<string>,
    provided: string,
    fields: Fields)

  /** `TicketDraft`. */
  datatype Draft = Draft(id: string, edit: Edit)

  // ---- Entries ------------------------------------------------------------------------

  function OrNull(s: Option<string>): Value { if s.Some? then Str(s.value) else Null }

  /** The first dependency key the entry carries, or the producer's. */
  function DependsOnKey(entry: Dict): string {
    if Has(entry, "depends_on") then "depends_on"
    else if Has(entry, "dependsOn") then "dependsOn"
    else "depends_on"
  }

  function WithDependsOn(entry: Dict, dependsOn: seq<string>): Dict {
    Put(Pop(Pop(entry, "depends_on"), "dependsOn"), DependsOnKey(entry), Arr(Strings(dependsOn)))
  }

  /** `_write_depends_on`. */
  method WriteDependsOn(entry: Dict, dependsOn: seq<string>) returns (written: Dict)
    ensures written == WithDependsOn(entry, dependsOn)
  {
    var existing: Option<string> := None;
    var k := 0;
    while k < |DEPENDS_ON_KEYS| && existing.None?
      invariant k <= |DEPENDS_ON_KEYS|
      invariant existing == if k > 0 && Has(entry, "depends_on") then Some("depends_on")
                            else if k > 1 && Has(entry, "dependsOn") then Some("dependsOn")
                            else None
    {
      if Has(entry, DEPENDS_ON_KEYS[k]) {
        existing := Some(DEPENDS_ON_KEYS[k]);
      }
      k := k + 1;
    }
    written := entry;
    for i := 0 to |DEPENDS_ON_KEYS|
      invariant written == if i == 0 then entry
                           else if i == 1 then Pop(entry, "depends_on")
                           else Pop(Pop(entry, "depends_on"), "dependsOn")
    {
      written := Pop(written, DEPENDS_ON_KEYS[i]);
    }
    written := Put(written, if existing.Some? then existing.value else DEPENDS_ON_KEYS[0], Arr(Strings(dependsOn)));
  }

  /** `{**existing, **_edit_mirror(edit)}`. */
  function Overlay(entry: Dict, e: Edit): Dict {
    Put(Put(Put(Put(Put(entry,
      "title", Str(e.title)),
      "track", OrNull(e.track)),
      "milestone", OrNull(e.milestone)),
      "dependsOn", Arr(Strings(e.dependsOn))),
      "provides", Str(e.provided))
  }

  /** `_merge_edit`. */
  function MergeEdit(entry: Dict, e: Edit): Dict { WithDependsOn(Overlay(entry, e), e.dependsOn) }

  /** `_draft_to_entry`. */
  function DraftEntry(d: Draft, relPath: string): Dict {
    WithDependsOn(
      [("id", Str(d.id)),
       ("title", Str(d.edit.title)),
       ("status", Str("todo")),
       ("track", OrNull(d.edit.track)),
       ("milestone", OrNull(d.edit.milestone)),
       ("provides", Str(d.edit.provided)),
       ("path", Str(relPath))],
      d.edit.dependsOn)
  }

  // ---- Plans --------------------------------------------------------------------------

  function ContentName(id: string): string { id + ".json" }

  /** `<ticketsDir>/<id>.json`, below the root. */
  function FlatBelow(id: string): seq<string> { ["docs", "planning", "tickets", ContentName(id)] }

  function FlatPath(p: Project, id: string): Path { p.root + FlatBelow(id) }

  /** `_content_path_for_create`. */
  function ContentPathForCreate(p: Project, id: string): Option<Path> {
    ResolveTicketPath(p.root, p.TicketsDir(), id, Some(PurePath(true, p.TicketsDir() + [ContentName(id)])))
  }

  function ManifestChange(c: Codec, p: Project, obj: Dict, tickets: seq<Dict>): PlannedChange {
    PlannedChange(p.Manifest(), Some(c.dumps(Obj(Put(obj, "tickets", Arr(Objects(tickets)))))))
  }

  /** The transform a write hands to `_roadmap_change`. */
  datatype RoadmapTransform =
    | CreateInRoadmap(draft: Draft)
    | EditInRoadmap(id: string, edit: Edit)
    | DeleteInRoadmap(id: string)

  function Transformed(change: RoadmapTransform, text: string): Option<string> {
    match change
    case CreateInRoadmap(d) => RoadmapEdit.CreateText(text, d.edit.milestone, d.id, d.edit.title)
    case EditInRoadmap(id, e) => RoadmapEdit.EditText(text, id, e.milestone, e.title)
    case DeleteInRoadmap(id) => RoadmapEdit.DeleteText(text, id)
  }

  /** `_roadmap_change`: only when there is a roadmap, it can be read, and its text changes. */
  function RoadmapChange(roadmap: Option<Path>, current: Option<string>, change: RoadmapTransform)
    : seq<PlannedChange>
  {
    if roadmap.None? || current.None? then []
    else
      var updated := Transformed(change, current.value);
      if updated.None? || updated.value == current.value then []
      else [PlannedChange(roadmap.value, updated)]
  }

  function RoadmapText(p: Project, disk: Disk): Option<string> {
    if p.roadmap.None? then None else ReadText(disk, p.roadmap.value)
  }

  type Plan = seq<PlannedChange>

  /** `render_create`. */
  function RenderCreate(c: Codec, p: Project, disk: Disk, d: Draft): Result<Plan, WriteError> {
    var path := ContentPathForCreate(p, d.id);
    if path.None? then Fail(PathTraversal)
    else match LoadManifest(c, disk, p.Manifest())
      case Fail(error) => Fail(error)
      case Ok(document) =>
        if FindEntry(document.tickets, d.id).Some? then Fail(TicketAlreadyExists)
        else
          var entry := DraftEntry(d, RelPosix(FlatBelow(d.id)));
          match Render(d.id, d.edit.fields)
          case None => Fail(TicketInvalid)
          case Some(content) =>
            Ok([ManifestChange(c, p, document.obj, document.tickets + [entry]),
                PlannedChange(path.value, Some(c.dumps(content)))]
               + RoadmapChange(p.roadmap, RoadmapText(p, disk), CreateInRoadmap(d)))
  }

  /** `_require_writable_format`. */
  function FormatError(path: Path): Option<WriteError> {
    if SuffixOf(path) == ".json" then None
    else if SuffixOf(path) == ".md" then Some(TicketFormatRetired)
    else Some(TicketFormatUnsupported)
  }

  /** `_read_content_or_none` raises. */
  predicate IsUnreadable(disk: Disk, path: Path) { Opened(disk, path) == Some(Unreadable) }

  /** `render_edit`. */
  function RenderEdit(c: Codec, p: Project, disk: Disk, id: string, e: Edit): Result<Plan, WriteError> {
    if !MatchesIdPattern(id) then Fail(PathTraversal)
    else match LoadManifest(c, disk, p.Manifest())
      case Fail(error) => Fail(error)
      case Ok(document) =>
        var index := FindEntry(document.tickets, id);
        if index.None? then Fail(UnknownTicket)
        else
          var path := EntryContentPath(c, p, document.tickets[index.value], id);
          if path.None? then Fail(PathTraversal)
          else if FormatError(path.value).Some? then Fail(FormatError(path.value).value)
          else
            var merged := MergeEdit(document.tickets[index.value], e);
            if IsUnreadable(disk, path.value) then Fail(TicketFileUnreadable)
            else match Render(id, e.fields)
              case None => Fail(TicketInvalid)
              case Some(content) =>
                Ok([ManifestChange(c, p, document.obj, document.tickets[index.value := merged]),
                    PlannedChange(path.value, Some(c.dumps(content)))]
                   + RoadmapChange(p.roadmap, RoadmapText(p, disk), EditInRoadmap(id, e)))
  }

  /** `render_delete`. */
  function RenderDelete(c: Codec, p: Project, disk: Disk, id: string): Result<Plan, WriteError> {
    if !MatchesIdPattern(id) then Fail(PathTraversal)
    else match LoadManifest(c, disk, p.Manifest())
      case Fail(error) => Fail(error)
      case Ok(document) =>
        var index := FindEntry(document.tickets, id);
        if index.None? then Fail(UnknownTicket)
        else
          var path := EntryContentPath(c, p, document.tickets[index.value], id);
          if path.None? then Fail(PathTraversal)
          else
            Ok([ManifestChange(c, p, document.obj, Without(document.tickets, index.value)),
                PlannedChange(path.value, None)]
               + RoadmapChange(p.roadmap, RoadmapText(p, disk), DeleteInRoadmap(id)))
  }
}
