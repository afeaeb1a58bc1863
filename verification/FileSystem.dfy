/** The filesystem as a tree. `stat`, `iterdir` and a whole-file read walk a path and give
    one of the three answers the run-state code separates: found, definitively absent
    (`ENOENT`/`ENOTDIR`), or "I could not look" (any other `OSError`). */
module FileSystem {
  import opened Common
  import Json

  /** What a readable file's bytes are, as far as the run-state reader can tell. */
  datatype Content = NotUtf8 | NotJson | Document(value: Json.Value)

  datatype Node =
    | Dir(children: map<string, Node>, searchable: bool, listable: bool)
    | File(content: Content, readable: bool)
    | Special  // neither a regular file nor a directory
    | Broken   // exists and cannot be resolved, such as a symlink loop (`ELOOP`)

  datatype Kind = Directory | Regular | Other

  datatype Probe<+T> = Found(value: T) | Absent | Failed

  type Path = seq<string>

  function Walk(n: Node, p: Path): Probe<Node>
  {
    if n.Broken? then Failed
    else if p == [] then Found(n)
    else if !n.Dir? then Absent
    else if !n.searchable then Failed
    else if p[0] !in n.children then Absent
    else Walk(n.children[p[0]], p[1..])
  }

  function KindOf(n: Node): Kind {
    match n
    case Dir(_, _, _) => Directory
    case File(_, _) => Regular
    case _ => Other
  }

  function Stat(n: Node, p: Path): Probe<Kind> {
    match Walk(n, p)
    case Found(m) => Found(KindOf(m))
    case Absent => Absent
    case Failed => Failed
  }

  /** `iterdir`: the entry names, in no promised order. */
  function List(n: Node, p: Path): Probe<set<string>> {
    match Walk(n, p)
    case Found(m) =>
      if !m.Dir? then Absent else if m.listable then Found(m.children.Keys) else Failed
    case Absent => Absent
    case Failed => Failed
  }

  function Read(n: Node, p: Path): Probe<Content> {
    match Walk(n, p)
    case Found(m) => if m.File? && m.readable then Found(m.content) else Failed
    case Absent => Absent
    case Failed => Failed
  }

  /** `worse` is `n` with less revealed: some permission bits cleared, some nodes no longer
      resolvable, nothing else changed. */
  ghost predicate Degrades(n: Node, worse: Node) {
    || worse.Broken?
    || match (n, worse)
       case (Dir(had, searched, listed), Dir(has, searches, lists)) =>
         && had.Keys == has.Keys && (searches ==> searched) && (lists ==> listed)
         && forall k :: k in had ==> Degrades(had[k], has[k])
       case (File(content, was), File(same, readable)) => content == same && (readable ==> was)
       case (Special, Special) => true
       case _ => false
  }

  /** An answer from the degraded side is the same answer or a failure to look. */
  predicate NoMore<T(==)>(before: Probe<T>, after: Probe<T>) {
    after.Failed? || after == before
  }

  lemma {:induction false} WalkDegrades(n: Node, worse: Node, p: Path)
    requires Degrades(n, worse)
    ensures
      var a, b := Walk(n, p), Walk(worse, p);
      b.Failed? || (a.Absent? && b.Absent?) || (a.Found? && b.Found? && Degrades(a.value, b.value))
  {
    if p != [] && worse.Dir? && worse.searchable && p[0] in worse.children {
      WalkDegrades(n.children[p[0]], worse.children[p[0]], p[1..]);
    }
  }

  lemma ProbesDegrade(n: Node, worse: Node, p: Path)
    requires Degrades(n, worse)
    ensures NoMore(Stat(n, p), Stat(worse, p))
    ensures NoMore(List(n, p), List(worse, p))
    ensures NoMore(Read(n, p), Read(worse, p))
  {
    WalkDegrades(n, worse, p);
    WalkIsResolved(n, p);
    WalkIsResolved(worse, p);
  }

  lemma {:induction false} WalkIsResolved(n: Node, p: Path)
    ensures Walk(n, p).Found? ==> !Walk(n, p).value.Broken?
  {
    if n.Dir? && p != [] && p[0] in n.children {
      WalkIsResolved(n.children[p[0]], p[1..]);
    }
  }

  /** Coherence: what lies under a path is looked up through it. */
  lemma {:induction false} WalkUnder(n: Node, p: Path, q: Path)
    ensures Walk(n, p + q) == if Walk(n, p).Found? then Walk(Walk(n, p).value, q) else Walk(n, p)
  {
    if p == [] {
      assert p + q == q;
    } else if n.Dir? && n.searchable && p[0] in n.children {
      WalkUnder(n.children[p[0]], p[1..], q);
      assert (p + q)[1..] == p[1..] + q;
    }
  }
}
