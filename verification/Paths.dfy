/** Paths as `pathlib` reads them, resolved and contained under the project root
    (file_adapter/path_safety.py). Symlinks are not followed. */
module Paths {
  import opened Common
  import opened Lines
  import opened TicketIds

  /** A resolved absolute path, one name per segment. */
  type Path = seq<string>

  /** A path as written: `Path(s)`. */
  datatype PurePath = PurePath(absolute: bool, segments: seq<string>)

  /** A name that stands for itself. */
  predicate IsPlain(name: string) { name != "" && name != "." && name != ".." && '/' !in name }

  ghost predicate AllPlain(names: seq<string>) { forall i :: 0 <= i < |names| ==> IsPlain(names[i]) }

  /** `pathlib` drops empty and `.` segments. */
  function Kept(parts: seq<string>): seq<string> {
    if parts == [] then []
    else if parts[0] == "" || parts[0] == "." then Kept(parts[1..])
    else [parts[0]] + Kept(parts[1..])
  }

  function ParsePath(s: string): PurePath { PurePath(StartsWith(s, "/"), Kept(Split(s, '/'))) }

  /** `resolve(strict=False)`: `..` climbs, and stays put at the top. */
  function Walked(from: Path, names: seq<string>): Path
    decreases |names|
  {
    if names == [] then from
    else if names[0] == ".." then Walked(if from == [] then [] else from[..|from| - 1], names[1..])
    else Walked(from + [names[0]], names[1..])
  }

  /** `is_relative_to`. */
  predicate IsWithin(p: Path, dir: Path) { |dir| <= |p| && p[..|dir|] == dir }

  /** `contain`: a relative path is taken from the root, and an escape is refused. */
  function Contain(root: Path, p: PurePath): (r: Option<Path>)
    ensures r.Some? ==> IsWithin(r.value, root)
  {
    var resolved := Walked(if p.absolute then [] else root, p.segments);
    if IsWithin(resolved, root) then Some(resolved) else None
  }

  /** `resolve_ticket_path`; `None` is PathTraversal. */
  function ResolveTicketPath(root: Path, ticketsDir: Path, id: string, path: Option<PurePath>): Option<Path> {
    if !IsSafeSegment(id) then None
    else Contain(root, if path.Some? then path.value else PurePath(true, ticketsDir + [id + ".md"]))
  }

  // ---- Suffixes -----------------------------------------------------------------------

  function Lower(s: string): string {
    seq(|s|, i requires 0 <= i < |s| => if 'A' <= s[i] <= 'Z' then s[i] - 'A' + 'a' else s[i])
  }

  /** The last dot before position `j`. */
  function LastDot(name: string, j: nat): (i: Option<nat>)
    requires j <= |name|
    ensures i.Some? ==> i.value < j
  {
    if j == 0 then None else if name[j - 1] == '.' then Some(j - 1) else LastDot(name, j - 1)
  }

  /** `Path.suffix`: nothing for a name that only begins or ends with its last dot. */
  function Suffix(name: string): string {
    match LastDot(name, |name|)
    case None => ""
    case Some(i) => if 0 < i < |name| - 1 then name[i..] else ""
  }

  /** `path.suffix.lower()`. */
  function SuffixOf(p: Path): string { if p == [] then "" else Lower(Suffix(p[|p| - 1])) }

  lemma {:induction false} LastDotIs(name: string, i: nat, j: nat)
    requires i < j <= |name| && name[i] == '.' && forall k :: i < k < j ==> name[k] != '.'
    ensures LastDot(name, j) == Some(i)
  {
    if i < j - 1 {
      LastDotIs(name, i, j - 1);
    }
  }

  lemma {:induction false} NoLastDot(name: string, i: nat, j: nat)
    requires i <= j <= |name| && forall k :: i <= k < j ==> name[k] != '.'
    ensures LastDot(name, j) == LastDot(name, i)
  {
    if i < j {
      NoLastDot(name, i, j - 1);
    }
  }

  /** The suffix is what follows the last dot, in lower case, when something stands before and
      behind that dot; a name whose only dot is its first character has none. */
  lemma SuffixIsAfterLastDot(p: Path, stem: string, ext: string)
    requires p != [] && '.' !in ext
    ensures p[|p| - 1] == stem + ("." + ext) ==>
              SuffixOf(p) == if stem != "" && ext != "" then "." + Lower(ext) else ""
    ensures p[|p| - 1] == ext ==> SuffixOf(p) == ""
  {
    var name := p[|p| - 1];
    if name == stem + ("." + ext) {
      assert name[|stem|] == '.' && forall k :: |stem| < k < |name| ==> name[k] == ext[k - |stem| - 1];
      LastDotIs(name, |stem|, |name|);
      assert name[|stem|..] == "." + ext;
      assert Lower("." + ext) == "." + Lower(ext);
    }
    if name == ext {
      NoLastDot(name, 0, |name|);
    }
  }

  /** Letter case does not matter to a suffix. */
  lemma JsonInAnyCase(p: Path, stem: string, ext: string)
    requires p != [] && '.' !in ext && stem != "" && p[|p| - 1] == stem + ("." + ext)
    ensures SuffixOf(p) == ".json" <==>
      && |ext| == 4 && (ext[0] == 'j' || ext[0] == 'J') && (ext[1] == 's' || ext[1] == 'S')
      && (ext[2] == 'o' || ext[2] == 'O') && (ext[3] == 'n' || ext[3] == 'N')
  {
    SuffixIsAfterLastDot(p, stem, ext);
    LowerIsJson(ext, Lower(ext));
    assert ext != "" ==> ("." + Lower(ext))[1..] == Lower(ext) && ".json"[1..] == "json" && ".json" == "." + "json";
  }

  lemma LowerIsJson(ext: string, lower: string)
    requires lower == Lower(ext)
    ensures lower == "json" <==>
      && |ext| == 4 && (ext[0] == 'j' || ext[0] == 'J') && (ext[1] == 's' || ext[1] == 'S')
      && (ext[2] == 'o' || ext[2] == 'O') && (ext[3] == 'n' || ext[3] == 'N')
  {
    if |ext| == 4 {
      IsFour(lower, 'j', 's', 'o', 'n');
      assert "json" == ['j', 's', 'o', 'n'];
    }
  }

  lemma IsFour(s: string, a: char, b: char, c: char, d: char)
    requires |s| == 4
    ensures s == [a, b, c, d] <==> s[0] == a && s[1] == b && s[2] == c && s[3] == d
  {
  }

  lemma JsonSuffix(p: Path, stem: string)
    requires p != [] && stem != "" && p[|p| - 1] == stem + ".json"
    ensures SuffixOf(p) == ".json"
  {
    var name := stem + ".json";
    assert name[|stem|] == '.' && name[|stem|..] == ".json";
    assert LastDot(name, |stem| + 1) == Some(|stem|);
    assert LastDot(name, |stem| + 2) == Some(|stem|) && LastDot(name, |stem| + 3) == Some(|stem|);
    assert LastDot(name, |stem| + 4) == Some(|stem|) && LastDot(name, |stem| + 5) == Some(|stem|);
    assert Suffix(name) == ".json";
    assert Lower(".json") == ".json";
  }

  // ---- Declared paths read back -------------------------------------------------------

  /** `_rel_posix` of a path under the root, given the part below it. */
  function RelPosix(below: seq<string>): string { Join(below, '/') }

  lemma {:induction false} KeptIsAll(names: seq<string>)
    requires AllPlain(names)
    ensures Kept(names) == names
  {
    if names != [] {
      assert IsPlain(names[0]);
      KeptIsAll(names[1..]);
    }
  }

  lemma {:induction false} WalkedDown(from: Path, names: seq<string>)
    requires AllPlain(names)
    ensures Walked(from, names) == from + names
    decreases |names|
  {
    if names != [] {
      assert IsPlain(names[0]);
      WalkedDown(from + [names[0]], names[1..]);
      assert from + [names[0]] + names[1..] == from + names;
    }
  }

  /** A path written relative to the root, and read again, is the path. */
  lemma RelPosixReadsBack(root: Path, below: seq<string>)
    requires below != [] && AllPlain(below)
    ensures Contain(root, ParsePath(RelPosix(below))) == Some(root + below)
  {
    assert forall i :: 0 <= i < |below| ==> IsPlain(below[i]);
    SplitJoin(below, '/');
    KeptIsAll(below);
    WalkedDown(root, below);
  }

  // ---- Climbing out -------------------------------------------------------------------

  /** `..` undoes the name before it. */
  lemma DotDotUndoes(from: Path, name: string, rest: seq<string>)
    requires IsPlain(name)
    ensures Walked(from, [name] + ([".."] + rest)) == Walked(from, rest)
  {
    assert ([name] + ([".."] + rest))[1..] == [".."] + rest && ([".."] + rest)[1..] == rest;
    assert (from + [name])[..|from|] == from;
  }

  /** A declared path that begins by climbing out stays out, unless it comes straight back. */
  lemma ClimbingOutIsRefused(root: Path, names: seq<string>)
    requires root != [] && AllPlain(names)
    ensures Contain(root, PurePath(false, [".."] + names)).Some? <==> names != [] && names[0] == root[|root| - 1]
  {
    var parent := root[..|root| - 1];
    assert ([".."] + names)[1..] == names;
    WalkedDown(parent, names);
    var reached := parent + names;
    assert root == parent + [root[|root| - 1]];
    if names != [] {
      assert reached[..|root|] == parent + [names[0]];
      assert reached[..|root|][|root| - 1] == names[0];
    }
  }

  /** An absolute path is taken as it stands, and only below the root. */
  lemma AbsoluteIsContained(root: Path, names: seq<string>)
    requires AllPlain(names)
    ensures Contain(root, PurePath(true, names)) == if IsWithin(names, root) then Some(names) else None
  {
    WalkedDown([], names);
    assert [] + names == names;
  }

  /** How a path is read: a leading slash makes it absolute, a leading `.` is dropped, and any
      other first name counts, `..` included. */
  lemma PathIsRead(first: string, names: seq<string>)
    requires names != [] && AllPlain(names) && '/' !in first
    ensures ParsePath(first + ("/" + Join(names, '/'))) ==
      if first == "" then PurePath(true, names)
      else PurePath(false, if first == "." then names else [first] + names)
  {
    var text := first + ("/" + Join(names, '/'));
    PartsBehind(first, names);
    KeptBehind(first, names);
    assert StartsWith(text, "/") <==> first == "" by {
      assert "/" == ['/'] && text[..1] == [text[0]];
    }
  }

  lemma PartsBehind(first: string, names: seq<string>)
    requires names != [] && AllPlain(names) && '/' !in first
    ensures Split(first + ("/" + Join(names, '/')), '/') == [first] + names
  {
    assert forall i :: 0 <= i < |names| ==> IsPlain(names[i]);
    SplitJoin(names, '/');
    SplitAtSeparator(first, Join(names, '/'), '/');
    assert "/" == ['/'];
  }

  lemma KeptBehind(first: string, names: seq<string>)
    requires AllPlain(names)
    ensures Kept([first] + names) == if first == "" || first == "." then names else [first] + names
  {
    KeptIsAll(names);
    assert ([first] + names)[1..] == names;
  }
}
