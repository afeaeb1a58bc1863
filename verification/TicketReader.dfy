/** One ticket as a later request reads it: the manifest entry joined with its content file
    (manifest.py, ticket_content.py, real.py `get_ticket`). */
module TicketReader {
  import opened Common
  import opened Json
  import opened Paths
  import opened Project
  import opened TicketIds
  import opened TicketJson
  import opened Manifest

  datatype Ticket = Ticket(
    id: string,
    title: string,
    status: string,
    track: Option<string>,
    milestone: Option<string>,
    dependsOn: seq<string>,
    provided: seq<string>,
    content: Option<Fields>)

  /** A string field with a default. */
  function StringOr(v: Option<Value>): Option<string> {
    match v
    case None => Some("")
    case Some(Str(s)) => Some(s)
    case _ => None
  }

  /** `_provides_to_list`, then the model's `list[str]`. */
  function ProvidedList(v: Option<Value>): Option<seq<string>> {
    match v
    case Some(Str(s)) => Some(if s == "" then [] else [s])
    case Some(Arr(items)) => AllStrings(items)
    case _ => Some([])
  }

  predicate IsFileList(v: Option<Value>) {
    v.None? || (v.value.Arr? && AllStrings(v.value.items).Some?)
  }

  /** `manifest_entry_to_ticket_stub`; `None` is a missing or mistyped field. */
  function StubOf(entry: Dict): Option<Ticket> {
    if !IsFileList(Get(entry, "files")) then None
    else StubFrom(EntryId(entry), Get(entry, "title"), Get(entry, "status"), Get(entry, "track"),
                  Get(entry, "milestone"), ReadDependsOn(entry), Get(entry, "provides"))
  }

  function StubFrom(id: Option<string>, title: Option<Value>, status: Option<Value>, track: Option<Value>,
                    milestone: Option<Value>, dependsOn: Option<seq<string>>, provided: Option<Value>)
    : Option<Ticket>
  {
    var t, s, k, m := StringOr(title), StringOr(status), OptionalString(track), OptionalString(milestone);
    var list := ProvidedList(provided);
    if id.Some? && MatchesIdPattern(id.value) && t.Some? && s.Some? && k.Some? && m.Some? && dependsOn.Some?
       && list.Some?
    then Some(Ticket(id.value, t.value, s.value, k.value, m.value, dependsOn.value, list.value, None))
    else None
  }

  predicate AllReadable(tickets: seq<Dict>) { forall i :: 0 <= i < |tickets| ==> StubOf(tickets[i]).Some? }

  /** The entries a reader streams past to reach the one at `i`, that one included. */
  predicate ReadableThrough(tickets: seq<Dict>, i: nat, from: nat := 0) {
    forall k :: 0 <= k < |tickets| && from <= k <= i ==> StubOf(tickets[k]).Some?
  }

  /** The stub stream up to the id: the index found, or whether a bad entry came first. */
  function FindStub(tickets: seq<Dict>, id: string, from: nat := 0): (r: Result<Option<nat>, WriteError>)
    requires from <= |tickets|
    ensures r.Ok? && r.value.Some? ==> r.value.value < |tickets| && StubOf(tickets[r.value.value]).Some?
                                       && EntryId(tickets[r.value.value]) == Some(id)
    decreases |tickets| - from
  {
    if from == |tickets| then Ok(None)
    else if StubOf(tickets[from]).None? then Fail(MalformedManifest)
    else if EntryId(tickets[from]) == Some(id) then Ok(Some(from))
    else FindStub(tickets, id, from + 1)
  }

  /** `read_ticket_body`: a Markdown body is there or not; its text is not modelled. */
  function ReadBody(c: Codec, p: Project, disk: Disk, entry: Dict, id: string): Result<Option<Fields>, WriteError> {
    var path := ReadContentPath(c, p, entry, id);
    if path.None? then Fail(PathTraversal)
    else if SuffixOf(path.value) != ".json" && SuffixOf(path.value) != ".md" then Fail(TicketFormatUnsupported)
    else match Opened(disk, path.value)
      case None => Fail(TicketFileMissing)
      case Some(Unreadable) => Fail(TicketFileUnreadable)
      case Some(Text(text)) =>
        if SuffixOf(path.value) == ".md" then Ok(None)
        else
          var content := ContentOf(c, id, text);
          if content.None? then Fail(TicketInvalid) else Ok(content)
  }

  /** `parse_ticket_content` on a text. */
  function ContentOf(c: Codec, id: string, text: string): Option<Fields> {
    match c.loads(text)
    case None => None
    case Some(v) => ParseContent(id, v)
  }

  /** `get_ticket`; `None` is an id the manifest does not carry. */
  function GetTicket(c: Codec, p: Project, disk: Disk, id: string): Result<Option<Ticket>, WriteError> {
    match LoadManifest(c, disk, p.Manifest())
    case Fail(error) => Fail(error)
    case Ok(document) =>
      match FindStub(document.tickets, id)
      case Fail(error) => Fail(error)
      case Ok(None) => Ok(None)
      case Ok(Some(i)) =>
        match ReadBody(c, p, disk, document.tickets[i], id)
        case Fail(error) => Fail(error)
        case Ok(content) => Ok(Some(StubOf(document.tickets[i]).value.(content := content)))
  }

  /** The stream reaches the entry the index finds exactly when every entry so far is readable. */
  lemma {:induction false} FindStubAt(tickets: seq<Dict>, id: string, i: nat, from: nat)
    requires from <= |tickets| && FindEntry(tickets, id, from) == Some(i)
    ensures FindStub(tickets, id, from)
            == if ReadableThrough(tickets, i, from) then Ok(Some(i)) else Fail(MalformedManifest)
    decreases |tickets| - from
  {
    if from < i {
      FindStubAt(tickets, id, i, from + 1);
      assert ReadableThrough(tickets, i, from) <==>
             StubOf(tickets[from]).Some? && ReadableThrough(tickets, i, from + 1);
    }
  }

  /** Over readable entries the stream finds what the index finds. */
  lemma {:induction false} FindStubIsFindEntry(tickets: seq<Dict>, id: string, from: nat)
    requires from <= |tickets| && AllReadable(tickets)
    ensures FindStub(tickets, id, from) == Ok(FindEntry(tickets, id, from))
    decreases |tickets| - from
  {
    if from < |tickets| {
      FindStubIsFindEntry(tickets, id, from + 1);
    }
  }
}
