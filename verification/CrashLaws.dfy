/** A crash in the middle of a write leaves a manifest that loads: the old one or the new one. */
module CrashLaws {
  import opened Common
  import opened Json
  import opened Paths
  import opened Project
  import opened TicketIds
  import opened TicketJson
  import opened Manifest
  import opened WriteRender
  import opened AtomicWrite
  import opened AtomicLaws
  import opened PlanLaws
  import opened WriterLaws
  import opened CreateLaws
  import RunStates

  /** A temporary file is beside its target, so it is in nobody's way who is not in the
      target's. */
  lemma TempIsApart(done: Disk, target: Path, token: string, path: Path)
    requires path in done && IsFresh(done, TempOf(target, token)) && !IsBelow(target, path) && |path| > 1
    ensures TempOf(target, token) != path && AreApart(TempOf(target, token), path)
  {
    var temp := TempOf(target, token);
    assert target != [] && |path| < |temp| ==> target[..|path|] == temp[..|path|];
  }

  lemma TempIsInNobodysWay(d: Disk, done: Disk, temp: Path, path: Path)
    requires HasSomeTemp(d, done, temp) && temp != path && AreApart(temp, path)
    ensures Opened(d, path) == Opened(done, path)
  {
    var text :| HasTemp(d, done, temp, text);
    assert IsUnderFile(done, path) ==> IsUnderFile(d, path);
    assert IsDirectory(done, path) ==> IsDirectory(d, path);
  }

  /** What a reader finds at any moment of an apply is what some prefix of it leaves. */
  lemma CrashIsPrefix(before: Disk, changes: Plan, k: nat, d: Disk, path: Path)
    requires IsAfterFirst(before, changes, k, d) && path in After(before, changes[..k]) && |path| > 1
    requires forall i :: 0 <= i < |changes| ==> !IsBelow(changes[i].path, path)
    ensures Opened(d, path) == Opened(After(before, changes[..k]), path)
  {
    var done := After(before, changes[..k]);
    if d != done {
      var token :| HasSomeTemp(d, done, TempOf(changes[k].path, token));
      TempIsApart(done, changes[k].path, token, path);
      TempIsInNobodysWay(d, done, TempOf(changes[k].path, token), path);
    }
  }

  /** The manifest is the first change and no other change is in its way: whenever a crash
      comes, a reader finds it as it was or as it was to be. */
  lemma ManifestIsOldOrNew(p: Project, disk: Disk, text: string, path: Path, content: Option<string>, roadmap: Plan,
                           d: Disk)
    requires IsDiscovered(p) && IsRoadmapChange(p, roadmap) && IsOpen(disk, p.Manifest()) && '\r' !in text
    requires path != p.Manifest() && AreApart(p.Manifest(), path)
    requires roadmap != [] ==> AreApart(p.Manifest(), roadmap[0].path)
    requires IsIntermediate(disk, Ordered(p, ThreeFiles(p, text, path, content, roadmap)), d)
    ensures Opened(d, p.Manifest()) == Opened(disk, p.Manifest()) || Opened(d, p.Manifest()) == Some(Text(text))
  {
    var plan := ThreeFiles(p, text, path, content, roadmap);
    PlanIsInOrder(p, text, path, content, roadmap);
    OthersAreApart(p, text, path, content, roadmap);
    var k: nat :| IsAfterFirst(disk, plan, k, d);
    ManifestAfter(p, disk, plan, k, text);
    CrashIsPrefix(disk, plan, k, d, p.Manifest());
  }

  /** No other change of the plan names the manifest or is in its way. */
  lemma OthersAreApart(p: Project, text: string, path: Path, content: Option<string>, roadmap: Plan)
    requires IsDiscovered(p) && IsRoadmapChange(p, roadmap)
    requires path != p.Manifest() && AreApart(p.Manifest(), path)
    requires roadmap != [] ==> AreApart(p.Manifest(), roadmap[0].path)
    ensures
      var plan := ThreeFiles(p, text, path, content, roadmap);
      && (forall i :: 0 < i < |plan| ==> plan[i].path != p.Manifest())
      && (forall i :: 0 <= i < |plan| ==> AreApart(plan[i].path, p.Manifest()))
      && (forall i :: 0 <= i < |plan| ==> !IsBelow(plan[i].path, p.Manifest()))
  {
    var plan := ThreeFiles(p, text, path, content, roadmap);
    if p.roadmap.Some? {
      RoadmapIsNoContent(p, p.Manifest());
    }
    forall i | 0 <= i < |plan|
      ensures AreApart(plan[i].path, p.Manifest()) && (i > 0 ==> plan[i].path != p.Manifest())
    {
      assert i == 0 || i == 1 || plan[i] == roadmap[0];
    }
  }

  lemma ManifestAfter(p: Project, disk: Disk, plan: Plan, k: nat, text: string)
    requires k <= |plan| && plan != [] && plan[0] == PlannedChange(p.Manifest(), Some(text))
    requires forall i :: 0 < i < |plan| ==> plan[i].path != p.Manifest()
    requires forall i :: 0 <= i < |plan| ==> AreApart(plan[i].path, p.Manifest())
    requires IsOpen(disk, p.Manifest()) && '\r' !in text
    ensures p.Manifest() in After(disk, plan[..k])
    ensures Opened(After(disk, plan[..k]), p.Manifest())
            == if k == 0 then Opened(disk, p.Manifest()) else Some(Text(text))
  {
    if k == 0 {
      assert plan[..0] == [];
    } else {
      AfterHolds(disk, plan, k, 0);
      ApartStaysClear(disk, plan, k, p.Manifest());
      OpenedIs(After(disk, plan[..k]), p.Manifest(), Some(text));
    }
  }

  lemma FlatIsApartFromManifest(p: Project, id: string)
    ensures AreApart(p.Manifest(), FlatPath(p, id))
  {
    var n := |p.root| + 2;
    assert p.Manifest()[n] == "tickets.json" && FlatPath(p, id)[n] == "tickets";
    assert |"tickets.json"| != |"tickets"|;
    assert |FlatPath(p, id)| == |p.Manifest()| + 1 && |p.Manifest()| == n + 1;
  }

  lemma RoadmapIsApartFromManifest(p: Project, disk: Disk, change: RoadmapTransform)
    requires IsOpen(disk, p.Manifest())
    ensures
      var roadmap := RoadmapChange(p.roadmap, RoadmapText(p, disk), change);
      roadmap != [] ==> AreApart(p.Manifest(), roadmap[0].path)
  {
    RoadmapChangeIsOpen(p, disk, change);
  }

  /** What was read of a manifest decides what loads. */
  lemma LoadsAlike(c: Codec, a: Disk, b: Disk, path: Path)
    requires Opened(a, path) == Opened(b, path)
    ensures LoadManifest(c, a, path) == LoadManifest(c, b, path)
  {
  }

  /** A create that is cut short anywhere, or stopped by something in the way. */
  lemma CreateSurvives(c: Codec, p: Project, disk: Disk, d: Draft, crash: Disk)
    requires IsJson(c) && IsDiscovered(p) && RenderCreate(c, p, disk, d).Ok?
    requires IsIntermediate(disk, Ordered(p, RenderCreate(c, p, disk, d).value), crash)
    ensures
      var before, after := LoadManifest(c, disk, p.Manifest()), LoadManifest(c, crash, p.Manifest());
      after == before || (after.Ok? && after.value.tickets == before.value.tickets + [CreatedEntry(d)])
  {
    var document, content := LoadManifest(c, disk, p.Manifest()).value, Render(d.id, d.edit.fields).value;
    var text := c.dumps(Obj(CreatedObject(document, d)));
    CreatePlanOf(c, p, disk, d, document);
    ReadIsOpen(disk, p.Manifest());
    FlatIsApart(p, d.id);
    FlatIsApartFromManifest(p, d.id);
    RoadmapIsApartFromManifest(p, disk, CreateInRoadmap(d));
    RoadmapChangeIs(p, RoadmapText(p, disk), CreateInRoadmap(d));
    ManifestIsOldOrNew(p, disk, text, FlatPath(p, d.id), Some(c.dumps(content)),
                       RoadmapChange(p.roadmap, RoadmapText(p, disk), CreateInRoadmap(d)), crash);
    if Opened(crash, p.Manifest()) == Opened(disk, p.Manifest()) {
      LoadsAlike(c, crash, disk, p.Manifest());
    } else {
      LoadedIsWellFormed(c, disk, p.Manifest());
      CreatedEntryIs(d);
      AppendedManifest(c, p, crash, document.obj, document.tickets, CreatedEntry(d), d.id);
    }
  }

  /** An edit that is cut short anywhere, unless the entry declares the manifest itself. */
  lemma EditSurvives(c: Codec, p: Project, disk: Disk, id: string, e: Edit, crash: Disk)
    requires IsJson(c) && IsDiscovered(p) && RenderEdit(c, p, disk, id, e).Ok?
    requires
      var tickets := LoadManifest(c, disk, p.Manifest()).value.tickets;
      EntryContentPath(c, p, tickets[FindEntry(tickets, id).value], id) != Some(p.Manifest())
    requires IsIntermediate(disk, Ordered(p, RenderEdit(c, p, disk, id, e).value), crash)
    ensures
      var before, after := LoadManifest(c, disk, p.Manifest()), LoadManifest(c, crash, p.Manifest());
      var i := FindEntry(before.value.tickets, id).value;
      after == before
      || (after.Ok? && after.value.tickets == before.value.tickets[i := MergeEdit(before.value.tickets[i], e)])
  {
    var x := EditPlanOf(c, p, disk, id, e);
    ReadIsOpen(disk, p.Manifest());
    FileIsApart(disk, p.Manifest(), x.path);
    RoadmapIsApartFromManifest(p, disk, EditInRoadmap(id, e));
    RoadmapChangeIs(p, RoadmapText(p, disk), EditInRoadmap(id, e));
    ManifestIsOldOrNew(p, disk, c.dumps(Obj(EditedObject(x, e))), x.path, Some(c.dumps(x.content)),
                       RoadmapChange(p.roadmap, RoadmapText(p, disk), EditInRoadmap(id, e)), crash);
    if Opened(crash, p.Manifest()) == Opened(disk, p.Manifest()) {
      LoadsAlike(c, crash, disk, p.Manifest());
    } else {
      EditedManifest(c, p, disk, crash, id, e, x);
    }
  }

  /** A delete that is cut short anywhere. */
  lemma DeleteSurvives(c: Codec, p: Project, disk: Disk, document: Document, i: nat, id: string, path: Path,
                       crash: Disk)
    requires IsJson(c) && IsDiscovered(p) && IsEntryAt(c, p, disk, document, i, id, path)
    requires IsGoneOrValid(c, disk, path, id)
    requires IsIntermediate(disk, Ordered(p, DeletePlan(c, p, disk, document, i, id, path)), crash)
    ensures
      var after := LoadManifest(c, crash, p.Manifest());
      after == Ok(document) || (after.Ok? && after.value.tickets == Without(document.tickets, i))
  {
    ReadIsOpen(disk, p.Manifest());
    ManifestIsNoContent(c, p, disk, id);
    FileIsApart(disk, p.Manifest(), path);
    RoadmapIsApartFromManifest(p, disk, DeleteInRoadmap(id));
    RoadmapChangeIs(p, RoadmapText(p, disk), DeleteInRoadmap(id));
    ManifestIsOldOrNew(p, disk, c.dumps(Obj(DeletedObject(document, i))), path, None, RoadmapOfDelete(p, disk, id),
                       crash);
    if Opened(crash, p.Manifest()) == Opened(disk, p.Manifest()) {
      LoadsAlike(c, crash, disk, p.Manifest());
    } else {
      LoadedIsWellFormed(c, disk, p.Manifest());
      DroppedManifest(c, p, crash, document.obj, document.tickets, i);
    }
  }
}
