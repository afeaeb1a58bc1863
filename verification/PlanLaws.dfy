/** What a plan of the write path does to the disk: where its targets are, that they are
    guarded and ordered, and what each of the three files holds afterwards. */
module PlanLaws {
  import opened Common
  import opened Json
  import opened Paths
  import opened Project
  import opened TicketIds
  import opened TicketJson
  import opened Manifest
  import opened WriteRender
  import opened AtomicWrite
  import opened AtomicLaws
  import RunStates
  import Newlines

  // ---- Targets ------------------------------------------------------------------------

  /** Below the root, away from every run-state location. */
  ghost predicate AvoidsRunState(below: Path) {
    forall i :: 0 <= i < |RunStates.RUN_STATE_SOURCE_LOCATIONS| ==>
      !IsWithin(below, RunStates.RUN_STATE_SOURCE_LOCATIONS[i].path)
  }

  lemma BelowIsSafe(p: Project, below: Path)
    requires IsDiscovered(p) && AvoidsRunState(below)
    ensures IsSafeTarget(p, p.root + below)
  {
    var target := p.root + below;
    assert target[..|p.root|] == p.root;
    forall f | f in Forbidden(p) ensures !IsWithin(target, f) {
      assert IsForbidden(p, f);
      var i :| 0 <= i < |RunStates.RUN_STATE_SOURCE_LOCATIONS|
               && f == p.root + RunStates.RUN_STATE_SOURCE_LOCATIONS[i].path;
      var location := RunStates.RUN_STATE_SOURCE_LOCATIONS[i].path;
      if |location| <= |below| {
        assert target[|p.root|..|f|] == below[..|location|];
        assert f[|p.root|..] == location;
      }
    }
  }

  lemma ManifestIsSafe(p: Project)
    requires IsDiscovered(p)
    ensures IsSafeTarget(p, p.Manifest())
  {
    var below := ["docs", "planning", "tickets.json"];
    assert below[0][0] == 'd' && below[2][0] == 't';
    BelowIsSafe(p, below);
  }

  lemma FlatIsSafe(p: Project, id: string)
    requires IsDiscovered(p)
    ensures IsSafeTarget(p, FlatPath(p, id))
  {
    var below := FlatBelow(id);
    assert below[0][0] == 'd' && below[2][0] == 't';
    BelowIsSafe(p, below);
  }

  lemma RoadmapIsSafe(p: Project)
    requires IsDiscovered(p) && p.roadmap.Some?
    ensures IsSafeTarget(p, p.roadmap.value)
  {
    var i :| 0 <= i < |ROADMAP_LOCATIONS| && p.roadmap.value == p.root + ROADMAP_LOCATIONS[i];
    var below := ROADMAP_LOCATIONS[i];
    assert below[0][0] == 'd' || below[0][0] == 'R';
    assert |below| == 3 ==> below[2][0] == 'R';
    BelowIsSafe(p, below);
  }

  /** The roadmap is not a JSON file, so it is neither the manifest nor a content file. */
  lemma RoadmapIsNoContent(p: Project, path: Path)
    requires IsDiscovered(p) && p.roadmap.Some?
    requires path == p.Manifest() || SuffixOf(path) == ".json"
    ensures p.roadmap.value != path
  {
    var i :| 0 <= i < |ROADMAP_LOCATIONS| && p.roadmap.value == p.root + ROADMAP_LOCATIONS[i];
    var last := p.roadmap.value[|p.roadmap.value| - 1];
    assert last == "ROADMAP.md";
    assert LastDot(last, 8) == Some(7);
    assert LastDot(last, 9) == Some(7) && LastDot(last, 10) == Some(7);
    assert Suffix(last) == ".md";
    assert Lower(".md") == ".md" && ".md"[1] != ".json"[1];
  }

  lemma FlatIsPlain(id: string)
    requires IsSafeSegment(id)
    ensures AllPlain(FlatBelow(id))
  {
    assert forall k :: 0 <= k < |id| ==> IsIdChar(id[k]);
    var name := ContentName(id);
    assert name[|id|] == '.' && |name| > 4;
    assert IsPlain("docs") && IsPlain("planning") && IsPlain("tickets") && IsPlain(name);
  }

  lemma FlatHasSuffix(p: Project, id: string)
    requires id != ""
    ensures SuffixOf(FlatPath(p, id)) == ".json" && SuffixOf(FlatBelow(id)) == ".json"
  {
    JsonSuffix(FlatPath(p, id), id);
    JsonSuffix(FlatBelow(id), id);
  }

  /** Where a create writes, and how an entry that declares that path resolves. */
  lemma FlatResolves(c: Codec, p: Project, id: string)
    requires IsDiscovered(p) && IsSafeSegment(id)
    ensures ContentPathForCreate(p, id) == Some(FlatPath(p, id))
    ensures Contain(p.root, ParsePath(RelPosix(FlatBelow(id)))) == Some(FlatPath(p, id))
  {
    FlatIsPlain(id);
    RelPosixReadsBack(p.root, FlatBelow(id));
    var names := p.TicketsDir() + [ContentName(id)];
    assert names == p.root + FlatBelow(id);
    assert forall i :: 0 <= i < |names| ==> IsPlain(names[i]);
    WalkedDown([], names);
    assert [] + names == names && names[..|p.root|] == p.root;
  }

  lemma FlatIsInjective(p: Project, id: string, other: string)
    requires FlatPath(p, id) == FlatPath(p, other)
    ensures id == other
  {
    var a, b := FlatPath(p, id), FlatPath(p, other);
    assert a[|a| - 1] == ContentName(id) && b[|b| - 1] == ContentName(other);
    assert ContentName(id)[..|id|] == id && ContentName(other)[..|other|] == other;
  }

  // ---- The three files afterwards -----------------------------------------------------

  ghost predicate IsRoadmapChange(p: Project, r: Plan) {
    r == [] || (|r| == 1 && p.roadmap == Some(r[0].path) && r[0].newText.Some?)
  }

  function ThreeFiles(p: Project, text: string, path: Path, content: Option<string>, roadmap: Plan): Plan {
    [PlannedChange(p.Manifest(), Some(text)), PlannedChange(path, content)] + roadmap
  }

  function FileOf(content: Option<string>): Option<File> {
    if content.None? then None else Some(Text(content.value))
  }

  /** What the plan leaves in a ticket's content file: a roadmap that an entry declares as its
      content file is rewritten last. */
  function Landed(path: Path, content: Option<string>, roadmap: Plan): Option<string> {
    if roadmap != [] && roadmap[0].path == path then roadmap[0].newText else content
  }

  /** Every file the plan names holds what was planned. */
  ghost predicate HasLanded(p: Project, after: Disk, text: string, path: Path, content: Option<string>, roadmap: Plan) {
    && FileAt(after, p.Manifest()) == Some(Text(text))
    && FileAt(after, path) == FileOf(Landed(path, content, roadmap))
    && (roadmap != [] ==> FileAt(after, roadmap[0].path) == FileOf(roadmap[0].newText))
  }

  /** The plan is in apply order. */
  lemma PlanIsInOrder(p: Project, text: string, path: Path, content: Option<string>, roadmap: Plan)
    requires IsDiscovered(p) && IsRoadmapChange(p, roadmap)
    ensures Ordered(p, ThreeFiles(p, text, path, content, roadmap)) == ThreeFiles(p, text, path, content, roadmap)
  {
    if p.roadmap.Some? {
      RoadmapIsNoContent(p, p.Manifest());
    }
    InOrderStays(p, ThreeFiles(p, text, path, content, roadmap));
  }

  /** The guard passes a plan exactly when it passes the ticket's content file. */
  lemma PlanIsSafe(p: Project, text: string, path: Path, content: Option<string>, roadmap: Plan)
    requires IsDiscovered(p) && IsRoadmapChange(p, roadmap)
    ensures AllSafe(p, ThreeFiles(p, text, path, content, roadmap)) <==> IsSafeTarget(p, path)
  {
    var plan := ThreeFiles(p, text, path, content, roadmap);
    ManifestIsSafe(p);
    if p.roadmap.Some? {
      RoadmapIsSafe(p);
    }
    assert plan[1].path == path;
    assert forall i :: 0 <= i < |plan| ==> i == 0 || i == 1 || plan[i] == roadmap[0];
  }

  lemma PlanLands(p: Project, disk: Disk, text: string, path: Path, content: Option<string>, roadmap: Plan)
    requires IsDiscovered(p) && IsRoadmapChange(p, roadmap) && path != p.Manifest()
    ensures
      HasLanded(p, After(disk, ThreeFiles(p, text, path, content, roadmap)), text, path, content, roadmap)
  {
    var plan := ThreeFiles(p, text, path, content, roadmap);
    if p.roadmap.Some? {
      RoadmapIsNoContent(p, p.Manifest());
    }
    assert plan[..|plan|] == plan;
    AfterHolds(disk, plan, |plan|, 0);
    AfterHolds(disk, plan, |plan|, |plan| - 1);
    if roadmap != [] && roadmap[0].path != path {
      AfterHolds(disk, plan, |plan|, 1);
    }
  }

  /** No other file changes. */
  lemma PlanKeepsOthers(p: Project, disk: Disk, text: string, path: Path, content: Option<string>, roadmap: Plan,
                        other: Path)
    requires other != p.Manifest() && other != path && |roadmap| <= 1 && (roadmap == [] || other != roadmap[0].path)
    ensures FileAt(After(disk, ThreeFiles(p, text, path, content, roadmap)), other) == FileAt(disk, other)
  {
    var plan := ThreeFiles(p, text, path, content, roadmap);
    assert plan[..|plan|] == plan;
    AfterElsewhere(disk, plan, |plan|, other);
  }

  /** Where a file may be written, and what may be written there. */
  ghost predicate IsOpen(disk: Disk, path: Path) { path in disk && !IsObstructed(disk, path) }

  lemma ReadIsOpen(disk: Disk, path: Path)
    requires ReadText(disk, path).Some?
    ensures IsOpen(disk, path)
  {
  }

  /** A plan over a manifest and a roadmap that were read, and a content file that nothing is
      in the way of, meets nothing. */
  lemma PlanIsClear(p: Project, disk: Disk, text: string, path: Path, content: Option<string>, roadmap: Plan)
    requires IsOpen(disk, p.Manifest()) && !IsObstructed(disk, path) && |roadmap| <= 1
    requires roadmap != [] ==> IsOpen(disk, roadmap[0].path)
    ensures IsClear(disk, ThreeFiles(p, text, path, content, roadmap))
  {
    var plan := ThreeFiles(p, text, path, content, roadmap);
    FileIsApart(disk, p.Manifest(), path);
    if roadmap != [] {
      FileIsApart(disk, roadmap[0].path, path);
      FileIsApart(disk, p.Manifest(), roadmap[0].path);
    }
    assert forall i :: 0 <= i < |plan| ==>
      plan[i].path == p.Manifest() || plan[i].path == path || (roadmap != [] && plan[i].path == roadmap[0].path);
  }

  lemma RoadmapChangeIsOpen(p: Project, disk: Disk, change: RoadmapTransform)
    ensures
      var roadmap := RoadmapChange(p.roadmap, RoadmapText(p, disk), change);
      |roadmap| <= 1 && (roadmap != [] ==> IsOpen(disk, roadmap[0].path))
  {
  }

  /** What the disk holds is what is read, when nothing is in the way and no `"\r"` in it. */
  lemma OpenedIs(disk: Disk, path: Path, content: Option<string>)
    requires !IsObstructed(disk, path) && FileAt(disk, path) == FileOf(content)
    requires content.Some? ==> '\r' !in content.value
    ensures Opened(disk, path) == FileOf(content)
  {
    if content.Some? {
      Newlines.UniversalIsSame(content.value);
    }
  }

  /** What a clear plan leaves is what is read afterwards. */
  lemma PlanIsRead(p: Project, disk: Disk, text: string, path: Path, content: Option<string>, roadmap: Plan)
    requires IsClear(disk, ThreeFiles(p, text, path, content, roadmap)) && '\r' !in text
    requires HasLanded(p, After(disk, ThreeFiles(p, text, path, content, roadmap)), text, path, content, roadmap)
    requires content.Some? ==> '\r' !in content.value
    ensures
      var after := After(disk, ThreeFiles(p, text, path, content, roadmap));
      && Opened(after, p.Manifest()) == Some(Text(text))
      && !IsObstructed(after, path) && (roadmap != [] ==> !IsObstructed(after, roadmap[0].path))
      && (roadmap == [] || roadmap[0].path != path ==> Opened(after, path) == FileOf(content))
  {
    var plan := ThreeFiles(p, text, path, content, roadmap);
    var after := After(disk, plan);
    assert plan[..|plan|] == plan;
    ClearStays(disk, plan, |plan|, 0);
    ClearStays(disk, plan, |plan|, 1);
    if roadmap != [] {
      ClearStays(disk, plan, |plan|, 2);
    }
    OpenedIs(after, p.Manifest(), Some(text));
    if roadmap == [] || roadmap[0].path != path {
      OpenedIs(after, path, content);
    }
  }

  lemma RoadmapChangeIs(p: Project, current: Option<string>, change: RoadmapTransform)
    ensures IsRoadmapChange(p, RoadmapChange(p.roadmap, current, change))
  {
  }

  // ---- The manifest afterwards --------------------------------------------------------

  /** A manifest that is written is the manifest that is read. */
  lemma ManifestReadsBack(c: Codec, p: Project, disk: Disk, obj: Dict, tickets: seq<Dict>)
    requires IsJson(c) && WellFormedDict(obj) && (forall i :: 0 <= i < |tickets| ==> WellFormedDict(tickets[i]))
    requires UniqueIds(tickets)
    requires Opened(disk, p.Manifest()) == FileOf(ManifestChange(c, p, obj, tickets).newText)
    ensures LoadManifest(c, disk, p.Manifest()) == Ok(Document(Put(obj, "tickets", Arr(Objects(tickets))), tickets))
  {
    var items := Objects(tickets);
    forall i | 0 <= i < |items| ensures WellFormed(items[i]) {
      assert items[i] == Obj(tickets[i]);
    }
    PutIsWellFormed(obj, "tickets", Arr(items));
    GetPut(obj, "tickets", Arr(items), "tickets");
    var document := Obj(Put(obj, "tickets", Arr(items)));
    assert c.loads(c.dumps(document)) == Some(document);
  }

  /** Everything read from disk is well formed. */
  lemma LoadedIsWellFormed(c: Codec, disk: Disk, path: Path)
    requires IsJson(c) && LoadManifest(c, disk, path).Ok?
    ensures
      var document := LoadManifest(c, disk, path).value;
      && WellFormedDict(document.obj) && UniqueIds(document.tickets)
      && Get(document.obj, "tickets") == Some(Arr(Objects(document.tickets)))
      && forall i :: 0 <= i < |document.tickets| ==> WellFormedDict(document.tickets[i])
  {
    var document := LoadManifest(c, disk, path).value;
    GetIsWellFormed(document.obj, "tickets");
    var items := Get(document.obj, "tickets").value.items;
    assert Objects(document.tickets) == items;
    forall i | 0 <= i < |document.tickets| ensures WellFormedDict(document.tickets[i]) {
      assert WellFormed(items[i]);
    }
  }
}
