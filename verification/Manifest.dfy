/** The ticket manifest: one validated read, the dependency keys, and where an entry says its
    content file lives (file_adapter/manifest.py). */
module Manifest {
  import opened Common
  import opened Json
  import opened Paths
  import opened Project
  import opened TicketIds

  datatype Document = Document(obj: Dict, tickets: seq<Dict>)

  function EntryId(entry: Dict): Option<string> {
    match Get(entry, "id")
    case Some(Str(s)) => Some(s)
    case _ => None
  }

  /** No two entries share a string id. */
  predicate UniqueIds(tickets: seq<Dict>) {
    forall i, j :: 0 <= i < j < |tickets| && EntryId(tickets[i]).Some? ==> EntryId(tickets[i]) != EntryId(tickets[j])
  }

  predicate AllObjects(items: seq<Value>) { forall i :: 0 <= i < |items| ==> items[i].Obj? }

  function Entries(items: seq<Value>): (r: seq<Dict>)
    requires AllObjects(items)
    ensures |r| == |items| && forall i :: 0 <= i < |r| ==> items[i] == Obj(r[i])
  {
    seq(|items|, i requires 0 <= i < |items| => items[i].members)
  }

  function Objects(tickets: seq<Dict>): (r: seq<Value>)
    ensures |r| == |tickets| && forall i :: 0 <= i < |r| ==> r[i] == Obj(tickets[i])
    ensures AllObjects(r) && Entries(r) == tickets
  {
    seq(|tickets|, i requires 0 <= i < |tickets| => Obj(tickets[i]))
  }

  /** What a well-formed manifest text holds. */
  function ParseManifest(c: Codec, text: string): Option<Document> {
    match c.loads(text)
    case Some(Obj(obj)) =>
      (match Get(obj, "tickets")
       case Some(Arr(items)) =>
         if AllObjects(items) && UniqueIds(Entries(items)) then Some(Document(obj, Entries(items))) else None
       case _ => None)
    case _ => None
  }

  function LoadManifest(c: Codec, disk: Disk, path: Path): Result<Document, WriteError> {
    match ReadText(disk, path)
    case None => Fail(MalformedManifest)
    case Some(text) =>
      match ParseManifest(c, text)
      case None => Fail(MalformedManifest)
      case Some(document) => Ok(document)
  }

  /** `load_manifest_document`: one pass that remembers where each id was first seen. */
  method LoadManifestDocument(c: Codec, disk: Disk, path: Path) returns (r: Result<Document, WriteError>)
    ensures r == LoadManifest(c, disk, path)
  {
    var text := ReadText(disk, path);
    if text.None? {
      return Fail(MalformedManifest);
    }
    var parsed := c.loads(text.value);
    if parsed.None? || !parsed.value.Obj? {
      return Fail(MalformedManifest);
    }
    var tickets := Get(parsed.value.members, "tickets");
    if tickets.None? || !tickets.value.Arr? {
      return Fail(MalformedManifest);
    }
    var items := tickets.value.items;
    var seen: map<string, nat> := map[];
    for i := 0 to |items|
      invariant AllObjects(items[..i])
      invariant forall id :: id in seen ==> seen[id] < i && EntryId(items[seen[id]].members) == Some(id)
      invariant forall k :: 0 <= k < i && EntryId(items[k].members).Some? ==>
                  EntryId(items[k].members).value in seen && seen[EntryId(items[k].members).value] == k
    {
      if !items[i].Obj? {
        return Fail(MalformedManifest);
      }
      var id := EntryId(items[i].members);
      if id.None? {
        continue;
      }
      if id.value in seen {
        assert AllObjects(items) ==> !UniqueIds(Entries(items)) by {
          if AllObjects(items) {
            var e := Entries(items);
            assert EntryId(e[seen[id.value]]) == EntryId(e[i]);
          }
        }
        return Fail(MalformedManifest);
      }
      seen := seen[id.value := i];
    }
    assert items[..|items|] == items;
    return Ok(Document(parsed.value.members, Entries(items)));
  }

  /** `_find_entry_index`. */
  function FindEntry(tickets: seq<Dict>, id: string, from: nat := 0): (r: Option<nat>)
    requires from <= |tickets|
    ensures r.Some? ==> from <= r.value < |tickets| && EntryId(tickets[r.value]) == Some(id)
    ensures forall i :: from <= i < (if r.Some? then r.value else |tickets|) ==> EntryId(tickets[i]) != Some(id)
    decreases |tickets| - from
  {
    if from == |tickets| then None
    else if EntryId(tickets[from]) == Some(id) then Some(from)
    else FindEntry(tickets, id, from + 1)
  }

  // ---- Dependencies -------------------------------------------------------------------

  const DEPENDS_ON_KEYS: seq<string> := ["depends_on", "dependsOn"]

  function AllStrings(items: seq<Value>): Option<seq<string>> {
    if items == [] then Some([])
    else if !items[0].Str? then None
    else
      var rest := AllStrings(items[1..]);
      if rest.Some? then Some([items[0].s] + rest.value) else None
  }

  /** `list(value)` as a list of ids; `None` where Python or the ticket model refuses. */
  function ListOf(v: Value): Option<seq<string>> {
    match v
    case Arr(items) => AllStrings(items)
    case Str(s) => Some(seq(|s|, i requires 0 <= i < |s| => [s[i]]))
    case Obj(d) => Some(seq(|d|, i requires 0 <= i < |d| => d[i].0))
    case _ => None
  }

  /** `_entry_depends_on`: the first key with a truthy value, most authoritative first. */
  function ReadDependsOn(entry: Dict): Option<seq<string>> {
    var snake, camel := Get(entry, "depends_on"), Get(entry, "dependsOn");
    if snake.Some? && Truthy(snake.value) then ListOf(snake.value)
    else if camel.Some? && Truthy(camel.value) then ListOf(camel.value)
    else Some([])
  }

  // ---- Where the content file is ------------------------------------------------------

  function DeclaredPath(c: Codec, entry: Dict): Option<PurePath> {
    match Get(entry, "path")
    case None => None
    case Some(v) => if Truthy(v) then Some(ParsePath(c.str(v))) else None
  }

  /** The write path's answer, `_entry_content_path`. */
  function EntryContentPath(c: Codec, p: Project, entry: Dict, id: string): Option<Path> {
    ResolveTicketPath(p.root, p.TicketsDir(), id, DeclaredPath(c, entry))
  }

  /** The read path's candidate, `ticket_file_path`. */
  function TicketFilePath(c: Codec, p: Project, entry: Dict, id: string): PurePath {
    match DeclaredPath(c, entry)
    case Some(declared) => if declared.absolute then declared else PurePath(true, p.root + declared.segments)
    case None => PurePath(true, p.TicketsDir() + [id + ".md"])
  }

  /** The read path's answer, `read_ticket_body`. */
  function ReadContentPath(c: Codec, p: Project, entry: Dict, id: string): Option<Path> {
    ResolveTicketPath(p.root, p.TicketsDir(), id, Some(TicketFilePath(c, p, entry, id)))
  }

  lemma {:induction false} WalkedThrough(from: Path, root: Path, names: seq<string>)
    requires AllPlain(root)
    ensures Walked(from, root + names) == Walked(from + root, names)
    decreases |root|
  {
    if root == [] {
      assert root + names == names && from + root == from;
    } else {
      assert IsPlain(root[0]);
      assert (root + names)[1..] == root[1..] + names;
      WalkedThrough(from + [root[0]], root[1..], names);
      assert from + [root[0]] + root[1..] == from + root;
    }
  }

  /** Reader and writer never disagree about which file a ticket is. */
  lemma ReadAndWriteResolveAlike(c: Codec, p: Project, entry: Dict, id: string)
    requires AllPlain(p.root)
    ensures ReadContentPath(c, p, entry, id) == EntryContentPath(c, p, entry, id)
  {
    match DeclaredPath(c, entry) {
      case Some(declared) =>
        if !declared.absolute {
          WalkedThrough([], p.root, declared.segments);
          assert [] + p.root == p.root;
        }
      case None =>
    }
  }
}
