/** A resolved project, the files the console reads and writes in it, and the JSON library
    between texts and values (domain/project.py). */
module Project {
  import opened Common
  import opened Json
  import opened Paths
  import opened RunStates
  import Newlines

  /** A regular file: UTF-8 text as it was written, or bytes that cannot be read as such. */
  datatype File = Text(text: string) | Unreadable

  type Disk = map<Path, File>

  datatype Project = Project(root: Path, roadmap: Option<Path>, source: Option<Path>) {
    function Manifest(): Path { root + ["docs", "planning", "tickets.json"] }
    function TicketsDir(): Path { root + ["docs", "planning", "tickets"] }
  }

  const ROADMAP_LOCATIONS: seq<Path> := [["docs", "planning", "ROADMAP.md"], ["ROADMAP.md"], ["docs", "ROADMAP.md"]]

  /** What `load_project` resolves. */
  ghost predicate IsDiscovered(p: Project) {
    && AllPlain(p.root)
    && (p.roadmap.Some? ==>
         exists i :: 0 <= i < |ROADMAP_LOCATIONS| && p.roadmap.value == p.root + ROADMAP_LOCATIONS[i])
    && (p.source.Some? ==>
         exists i :: 0 <= i < |RUN_STATE_SOURCE_LOCATIONS|
                     && p.source.value == p.root + RUN_STATE_SOURCE_LOCATIONS[i].path)
  }

  // ---- Files --------------------------------------------------------------------------

  /** What the disk holds there, as it was written. */
  function FileAt(disk: Disk, path: Path): Option<File> { if path in disk then Some(disk[path]) else None }

  predicate IsBelow(path: Path, dir: Path) { path != dir && IsWithin(path, dir) }

  /** A regular file stands where the path needs a directory. */
  predicate IsUnderFile(disk: Disk, path: Path) {
    exists q {:trigger IsBelow(path, q)} :: q in disk && IsBelow(path, q)
  }

  /** Files lie below it: the path is a directory. */
  predicate IsDirectory(disk: Disk, path: Path) {
    exists q {:trigger IsBelow(q, path)} :: q in disk && IsBelow(q, path)
  }

  /** Opening, replacing or unlinking it raises an `OSError` other than `FileNotFoundError`. */
  predicate IsObstructed(disk: Disk, path: Path) { IsUnderFile(disk, path) || IsDirectory(disk, path) }

  /** What opening it in text mode gives; `None` is `FileNotFoundError`. */
  function Opened(disk: Disk, path: Path): Option<File> {
    if IsObstructed(disk, path) then Some(File.Unreadable) else AsRead(FileAt(disk, path))
  }

  /** Text mode translates newlines. */
  function AsRead(file: Option<File>): Option<File> {
    if file.Some? && file.value.Text? then Some(Text(Newlines.Universal(file.value.text))) else file
  }

  /** `_read_text_or_none`. */
  function ReadText(disk: Disk, p: Path): Option<string> {
    var file := Opened(disk, p);
    if file.Some? && file.value.Text? then Some(file.value.text) else None
  }

  /** `json.dumps`, `json.loads` and Python's `str` of a JSON value. */
  datatype Codec = Codec(dumps: Value -> string, loads: string -> Option<Value>, str: Value -> string)

  /** The two directions are inverse on everything a document can hold, and a `"\r"` in a
      string is written as an escape. */
  ghost predicate IsJson(c: Codec) {
    && (forall v {:trigger c.dumps(v)} :: WellFormed(v) ==> c.loads(c.dumps(v)) == Some(v))
    && (forall v {:trigger c.dumps(v)} :: '\r' !in c.dumps(v))
    && (forall s {:trigger c.loads(s)} :: c.loads(s).Some? ==> WellFormed(c.loads(s).value))
    && (forall s :: c.str(Str(s)) == s)
  }

  datatype WriteError =
    | PathTraversal
    | MalformedManifest
    | TicketAlreadyExists
    | UnknownTicket
    | TicketFormatRetired
    | TicketFormatUnsupported
    | TicketFileMissing
    | TicketFileUnreadable
    | TicketInvalid
    | TicketNotMutable
    | AtomicWriteFailed

  /** One file's desired text, or its removal. */
  datatype PlannedChange = PlannedChange(path: Path, newText: Option<string>)
}
