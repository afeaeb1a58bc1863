/** The rest of a published ticket: where the two writers' answers differ beside the compared
    fields, and where they do not (ticket_content.py `enrich_ticket`, fake_writer.py
    `_entry_to_ticket`). */
module PublishedDetails {
  import opened Common
  import opened Json
  import opened Paths
  import opened Project
  import opened TicketIds
  import opened TicketJson
  import opened Manifest
  import opened TicketReader
  import opened WriteRender
  import opened PlanLaws
  import opened CreateLaws
  import opened FakeWriter
  import opened Simulation
  import RunStates

  /** `render_ticket_markdown` and `render_markdown`. */
  datatype Renderers = Renderers(markdown: (Fields, Dict) -> string, html: string -> string)

  datatype Details = Details(
    filePath: Path,
    runState: RunStates.RunState,
    raw: Dict,
    bodyMarkdown: string,
    bodyHtml: string)

  /** What a read publishes of an entry and the content found for it; without content, what
      the manifest stub says. No reader of tickets sets the run state. */
  function DetailsRead(r: Renderers, c: Codec, p: Project, entry: Dict, id: string, content: Option<Fields>): Details {
    match content
    case None => Details(TicketFilePath(c, p, entry, id).segments, RunStates.Unknown, entry, "", "")
    case Some(f) =>
      var markdown, path := r.markdown(f, entry), ReadContentPath(c, p, entry, id);
      Details(if path.Some? then path.value else [], RunStates.Unknown, Put(entry, "frontMatter", Obj([])), markdown,
              r.html(markdown))
  }

  /** What the in-memory writer publishes: its stub is built without a root, its Markdown from
      the fields as their own reader gives them back. */
  function DetailsInMemory(r: Renderers, p: Project, w: FakeState, entry: Dict, id: string): Details {
    var content := ContentsAt(w, id);
    Details(FakeFilePath(p, id), StateOf(w, id), entry,
            if content.Some? then r.markdown(Normal(content.value), entry) else "", "")
  }

  /** For every known ticket: the Markdown is the same. The raw entry is the same but for the
      front matter a read adds to it. The run state is the same exactly when none was seeded.
      The file path never is, and no HTML is rendered in memory. */
  lemma DetailsCompare(r: Renderers, c: Codec, p: Project, disk: Disk, w: FakeState, id: string, i: nat)
    requires IsJson(c) && IsDiscovered(p) && SameTickets(c, p, disk, w) && IsSafeSegment(id)
    requires FindEntry(w.manifest, id) == Some(i)
    ensures
      var content := LastContent(c, disk, FlatPath(p, id), id);
      var entry := w.manifest[i];
      var onDisk, inMemory := DetailsRead(r, c, p, entry, id, content), DetailsInMemory(r, p, w, entry, id);
      && onDisk.bodyMarkdown == inMemory.bodyMarkdown
      && onDisk.raw == (if content.Some? then Put(inMemory.raw, "frontMatter", Obj([])) else inMemory.raw)
      && (onDisk.runState == inMemory.runState <==> StateOf(w, id) == RunStates.Unknown)
      && onDisk.filePath == FlatPath(p, id) && onDisk.filePath != inMemory.filePath
      && inMemory.bodyHtml == "" && onDisk.bodyHtml == (if content.Some? then r.html(inMemory.bodyMarkdown) else "")
  {
    assert IsFlat(w.manifest[i]);
    FlatEntryIsPublished(c, p, w.manifest[i], id);
    FilePathsDiverge(p, id);
    ContentIsFound(c, p, disk, w, id);
    DetailsOfFlat(r, c, p, w, w.manifest[i], id, LastContent(c, disk, FlatPath(p, id), id));
  }

  lemma FlatEntryIsPublished(c: Codec, p: Project, entry: Dict, id: string)
    requires IsJson(c) && IsDiscovered(p) && IsSafeSegment(id) && Get(entry, "path") == Some(Str(FlatText(id)))
    ensures ReadContentPath(c, p, entry, id) == Some(FlatPath(p, id))
    ensures TicketFilePath(c, p, entry, id).segments == FlatPath(p, id)
  {
    FlatEntryResolves(c, p, entry, id);
    DeclaredIsPublished(c, p, entry, id);
    FlatSegments(id);
  }

  lemma DeclaredIsPublished(c: Codec, p: Project, entry: Dict, id: string)
    requires DeclaredPath(c, entry) == Some(ParsePath(FlatText(id)))
    ensures TicketFilePath(c, p, entry, id).segments ==
      if ParsePath(FlatText(id)).absolute then ParsePath(FlatText(id)).segments
      else p.root + ParsePath(FlatText(id)).segments
  {
  }

  lemma ContentIsFound(c: Codec, p: Project, disk: Disk, w: FakeState, id: string)
    requires IsDiscovered(p) && SameContents(c, p, disk, w) && IsSafeSegment(id)
    ensures LastContent(c, disk, FlatPath(p, id), id) == NormalOf(ContentsAt(w, id))
  {
    FlatIsApart(p, id);
    assert SameContent(c, id, Opened(disk, FlatPath(p, id)), ContentsAt(w, id));
  }

  lemma DetailsOfFlat(r: Renderers, c: Codec, p: Project, w: FakeState, entry: Dict, id: string,
                      content: Option<Fields>)
    requires ReadContentPath(c, p, entry, id) == Some(FlatPath(p, id)) && content == NormalOf(ContentsAt(w, id))
    requires TicketFilePath(c, p, entry, id).segments == FlatPath(p, id)
    ensures
      var onDisk, inMemory := DetailsRead(r, c, p, entry, id, content), DetailsInMemory(r, p, w, entry, id);
      && onDisk.bodyMarkdown == inMemory.bodyMarkdown && onDisk.filePath == FlatPath(p, id)
      && onDisk.raw == (if content.Some? then Put(inMemory.raw, "frontMatter", Obj([])) else inMemory.raw)
      && (onDisk.runState == inMemory.runState <==> StateOf(w, id) == RunStates.Unknown)
      && inMemory.bodyHtml == "" && onDisk.bodyHtml == (if content.Some? then r.html(inMemory.bodyMarkdown) else "")
  {
  }

  lemma FilePathsDiverge(p: Project, id: string)
    ensures FakeFilePath(p, id) != FlatPath(p, id)
  {
    var published, markdown := FlatPath(p, id), FakeFilePath(p, id);
    assert |published[|published| - 1]| != |markdown[|markdown| - 1]|;
  }
}
