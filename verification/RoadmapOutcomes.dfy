/** The roadmap on disk after a create, an edit or a delete: what the next reader finds there,
    said of the request alone. */
module RoadmapOutcomes {
  import opened Common
  import opened Json
  import opened Lines
  import opened Paths
  import opened Project
  import opened TicketIds
  import opened TicketJson
  import opened Manifest
  import opened TicketReader
  import opened WriteRender
  import opened AtomicWrite
  import opened AtomicLaws
  import opened PlanLaws
  import opened WriterLaws
  import opened CreateLaws
  import opened RealWriter
  import opened RoadmapParse
  import opened RoadmapEdit
  import opened RoadmapLaws
  import opened RoadmapMoves
  import opened RoadmapHeadings
  import opened RoadmapOnDisk
  import opened RoadmapItems
  import Newlines
  import RunStates
  import Gate = RunStateGate

  /** What is read of the roadmap once an edit has been written. */
  lemma EditedRoadmapIsRead(c: Codec, p: Project, disk: Disk, state: RunStates.RunState, id: string, e: Edit)
    requires IsJson(c) && IsDiscovered(p) && RenderEdit(c, p, disk, id, e).Ok? && state in Gate.MUTABLE_STATES
    requires
      var tickets := LoadManifest(c, disk, p.Manifest()).value.tickets;
      var path := EntryContentPath(c, p, tickets[FindEntry(tickets, id).value], id).value;
      path != p.Manifest() && IsSafeTarget(p, path)
    requires p.roadmap.Some?
    ensures
      var after := RoadmapText(p, EditOutcome(c, p, disk, state, id, e).disk);
      match RoadmapText(p, disk)
      case None => after == None
      case Some(current) => after == Some(ReadAfter(current, EditText(current, id, e.milestone, e.title)))
  {
    var x := EditPlanOf(c, p, disk, id, e);
    EditApplies(c, p, disk, id, e, x);
    OutcomeOfEdit(c, p, disk, state, id, e, PlanOfEdit(c, p, disk, id, e, x));
    EditedRoadmapOf(c, p, disk, id, e, x, After(disk, PlanOfEdit(c, p, disk, id, e, x)));
  }

  lemma EditedRoadmapOf(c: Codec, p: Project, disk: Disk, id: string, e: Edit, x: EditPlan, after: Disk)
    requires IsDiscovered(p) && IsEditPlan(c, p, disk, id, e, x) && x.path != p.Manifest() && p.roadmap.Some?
    requires after == After(disk, PlanOfEdit(c, p, disk, id, e, x))
    ensures
      match RoadmapText(p, disk)
      case None => RoadmapText(p, after) == None
      case Some(current) =>
        RoadmapText(p, after) == Some(ReadAfter(current, EditText(current, id, e.milestone, e.title)))
  {
    var text, content := c.dumps(Obj(EditedObject(x, e))), c.dumps(x.content);
    RoadmapIsNoContent(p, x.path);
    ReadIsOpen(disk, p.Manifest());
    if RoadmapText(p, disk).Some? {
      RoadmapAfterPlanIs(p, disk, text, x.path, Some(content), EditInRoadmap(id, e));
    } else {
      WritingUncoversNothing(p, disk, text, x.path, content);
    }
  }

  /** A write that removes no file makes no roadmap readable. */
  lemma WritingUncoversNothing(p: Project, disk: Disk, text: string, path: Path, content: string)
    requires IsDiscovered(p) && p.roadmap.Some? && path != p.Manifest() && p.roadmap != Some(path)
    requires RoadmapText(p, disk).None?
    ensures RoadmapText(p, After(disk, ThreeFiles(p, text, path, Some(content), []))).None?
  {
    var after := After(disk, ThreeFiles(p, text, path, Some(content), []));
    RoadmapIsNoContent(p, p.Manifest());
    PlanKeepsOthers(p, disk, text, path, Some(content), [], p.roadmap.value);
    PlanLands(p, disk, text, path, Some(content), []);
    forall q | q in disk ensures q in after {
      if q == p.Manifest() || q == path {
        assert FileAt(after, q).Some?;
      } else {
        PlanKeepsOthers(p, disk, text, path, Some(content), [], q);
      }
    }
    UnreadStaysUnread(disk, after, p.roadmap.value);
  }

  /** One item line of the ticket, the only one, is where the edit wants it and says what the
      edit says; every other line is as it was. */
  ghost predicate HasEditedItem(before: seq<string>, after: seq<string>, id: string, milestone: Option<string>,
                                title: string) {
    exists i: nat, j: nat ::
      && OneItemMoved(before, i, after, j, id)
      && Classify(after[j]) == Listed(Item(Strip("**" + id + "**" + (" \U{2014} " + title)), Some(id)))
      && (SectionExists(before, milestone) ==> StandsUnder(after, j, milestone.value))
  }

  /** The line stands in a section whose heading names the milestone. */
  ghost predicate StandsUnder(lines: seq<string>, j: nat, milestone: string) {
    exists h: nat ::
      && h < j < |lines| && IsHeading(lines[h]) && (forall k :: h < k <= j ==> !IsHeading(lines[k]))
      && HeadingMatches(HeadingName(lines[h]), milestone)
  }

  /** A permitted edit on disk, for a title of one line and at most one item of the ticket: the
      roadmap stays as it was when no item names the ticket; otherwise its item has the new
      label, and stands in a section of the edit's milestone if there is one. */
  lemma EditMovesItemOnDisk(c: Codec, p: Project, disk: Disk, state: RunStates.RunState, id: string, e: Edit,
                            current: string)
    requires IsJson(c) && IsDiscovered(p) && RenderEdit(c, p, disk, id, e).Ok? && state in Gate.MUTABLE_STATES
    requires
      var tickets := LoadManifest(c, disk, p.Manifest()).value.tickets;
      var path := EntryContentPath(c, p, tickets[FindEntry(tickets, id).value], id).value;
      path != p.Manifest() && IsSafeTarget(p, path)
    requires p.roadmap.Some? && RoadmapText(p, disk) == Some(current)
    requires AtMostOneCarries(Split(current), id) && !Newlines.HasBreak(e.title)
    ensures
      var after := RoadmapText(p, EditOutcome(c, p, disk, state, id, e).disk);
      && after.Some?
      && (NoneCarries(Split(current), id) ==> after.value == current)
      && (!NoneCarries(Split(current), id) ==>
           HasEditedItem(Split(current), Split(after.value), id, e.milestone, e.title))
  {
    EditedRoadmapIsRead(c, p, disk, state, id, e);
    NoReturnIsRead(p, disk);
    EditedTextIsRead(current, id, e.milestone, e.title);
  }

  lemma EditedTextIsRead(current: string, id: string, milestone: Option<string>, title: string)
    requires '\r' !in current && AtMostOneCarries(Split(current), id) && !Newlines.HasBreak(title)
    ensures
      var after := ReadAfter(current, EditText(current, id, milestone, title));
      && (NoneCarries(Split(current), id) ==> after == current)
      && (!NoneCarries(Split(current), id) ==>
           HasEditedItem(Split(current), Split(after), id, milestone, title))
  {
    var edited := EditText(current, id, milestone, title);
    EditTouchesOneItem(current, id, milestone, title);
    EditHolds(current, id, milestone, title);
    Newlines.UniversalIsSame(RoadmapLaws.Applied(current, edited));
    if edited.Some? {
      var i, j := EditedIndices(current, id, milestone, title);
      var after := Split(edited.value);
      if SectionExists(Split(current), milestone) {
        ItemIsNoHeading(after[j]);
        var h := HeadingFor(after, j).value;
        assert StandsUnder(after, j, milestone.value);
      }
    }
  }

  /** The same, said by first words: when each heading has its own and the milestone is one
      word, the item stands under the heading whose first word it is. */
  lemma EditedItemStandsUnderItsWord(lines: seq<string>, j: nat, milestone: string)
    requires StandsUnder(lines, j, milestone) && IsOneWord(milestone)
    ensures exists h: nat :: h < j < |lines| && IsHeading(lines[h]) && (forall k :: h < k <= j ==> !IsHeading(lines[k]))
                             && FirstWord(HeadingName(lines[h])) == milestone
  {
    var h: nat :|
      && h < j < |lines| && IsHeading(lines[h]) && (forall k :: h < k <= j ==> !IsHeading(lines[k]))
      && HeadingMatches(HeadingName(lines[h]), milestone);
    MatchIsFirstWord(HeadingName(lines[h]), milestone);
  }

  /** A create that went through, for a title of one line: the roadmap's milestones are the old
      ones with exactly one item, last under the first heading that names the milestone; or
      the old ones when there is none. */
  lemma CreateFilesItemOnDisk(c: Codec, p: Project, disk: Disk, d: Draft, current: string)
    requires IsJson(c) && IsDiscovered(p) && CreateOutcome(c, p, disk, d).answer.Ok?
    requires RoadmapText(p, disk) == Some(current) && OnlyNewlines(current)
    requires OnlyNewlines(d.edit.title) && '\n' !in d.edit.title
    ensures
      var after := RoadmapText(p, CreateOutcome(c, p, disk, d).disk);
      var k := if d.edit.milestone.Some? then FirstNamed(Parsed(current), d.edit.milestone.value) else None;
      && after.Some?
      && (k.None? ==> after.value == current)
      && (k.Some? ==>
           Parsed(after.value)
           == AddItem(Parsed(current), k.value,
                      Item(Strip("**" + d.id + "**" + (" \U{2014} " + d.edit.title)), NamedBy(d.id, d.edit.title))))
  {
    var document := WentThrough(c, p, disk, d);
    var content := Render(d.id, d.edit.fields).value;
    CreateReadsBack(c, p, disk, d, document);
    FlatIsApart(p, d.id);
    ReadIsOpen(disk, p.Manifest());
    RoadmapAfterPlanIs(p, disk, c.dumps(Obj(CreatedObject(document, d))), FlatPath(p, d.id), Some(c.dumps(content)),
                       CreateInRoadmap(d));
    NoReturnIsRead(p, disk);
    CreatedTextIsRead(current, d.edit.milestone, d.id, d.edit.title);
  }

  lemma CreatedTextIsRead(current: string, milestone: Option<string>, id: string, title: string)
    requires MatchesIdPattern(id) && '\r' !in current && OnlyNewlines(current)
    requires OnlyNewlines(title) && '\n' !in title
    ensures
      var after := ReadAfter(current, CreateText(current, milestone, id, title));
      var k := if milestone.Some? then FirstNamed(Parsed(current), milestone.value) else None;
      && (k.None? ==> after == current)
      && (k.Some? ==>
           Parsed(after)
           == AddItem(Parsed(current), k.value,
                      Item(Strip("**" + id + "**" + (" \U{2014} " + title)), NamedBy(id, title))))
  {
    CreateHolds(current, milestone, id, title);
    OnlyNewlinesHasNoReturn(title);
    Newlines.UniversalIsSame(RoadmapLaws.Applied(current, CreateText(current, milestone, id, title)));
    if milestone.Some? {
      CreateAgreesWithParser(current, milestone.value, id, title);
    }
  }

  lemma OnlyNewlinesHasNoReturn(text: string)
    requires OnlyNewlines(text)
    ensures '\r' !in text
  {
  }

  /** Line `n` is gone, all others are there in their order, and no item names the ticket. */
  ghost predicate IsCutAt(before: string, after: string, n: nat, id: string)
    requires n < |Split(before)|
  {
    var lines := Split(before);
    && NoneCarries(Without(lines, n), id)
    && Split(after) == if |lines| > 1 then Without(lines, n) else [""]
  }

  /** A delete that went through: no item names the ticket any more, when one did, and all other
      lines are as they were. */
  lemma DeleteTakesItemOnDisk(c: Codec, p: Project, disk: Disk, document: Document, i: nat, state: RunStates.RunState,
                              id: string, path: Path, current: string)
    requires IsJson(c) && IsDiscovered(p) && IsEntryAt(c, p, disk, document, i, id, path)
    requires state in Gate.DELETABLE_STATES && DeleteOutcome(c, p, disk, state, id).answer.Ok?
    requires RoadmapText(p, disk) == Some(current) && p.roadmap != Some(path)
    requires AtMostOneCarries(Split(current), id)
    ensures
      var after := RoadmapText(p, DeleteOutcome(c, p, disk, state, id).disk);
      && after.Some?
      && (NoneCarries(Split(current), id) ==> after.value == current)
      && forall n :: 0 <= n < |Split(current)| && Carries(Split(current)[n], id) ==>
           IsCutAt(current, after.value, n, id)
  {
    DeletedRoadmapIsRead(c, p, disk, document, i, state, id, path, current);
    NoReturnIsRead(p, disk);
    DeletedTextIsRead(current, id);
  }

  lemma DeletedRoadmapIsRead(c: Codec, p: Project, disk: Disk, document: Document, i: nat, state: RunStates.RunState,
                             id: string, path: Path, current: string)
    requires IsJson(c) && IsDiscovered(p) && IsEntryAt(c, p, disk, document, i, id, path)
    requires state in Gate.DELETABLE_STATES && DeleteOutcome(c, p, disk, state, id).answer.Ok?
    requires RoadmapText(p, disk) == Some(current) && p.roadmap != Some(path)
    ensures RoadmapText(p, DeleteOutcome(c, p, disk, state, id).disk)
            == Some(ReadAfter(current, DeleteText(current, id)))
  {
    DeleteGoesThrough(c, p, disk, document, i, state, id, path);
    DeletedPlanIsRead(c, p, disk, document, i, id, path, current);
  }

  lemma DeletedPlanIsRead(c: Codec, p: Project, disk: Disk, document: Document, i: nat, id: string, path: Path,
                          current: string)
    requires IsDiscovered(p) && IsEntryAt(c, p, disk, document, i, id, path) && IsGoneOrValid(c, disk, path, id)
    requires RoadmapText(p, disk) == Some(current) && p.roadmap != Some(path) && path != p.Manifest()
    ensures RoadmapText(p, After(disk, DeletePlan(c, p, disk, document, i, id, path)))
            == Some(ReadAfter(current, DeleteText(current, id)))
  {
    ReadIsOpen(disk, p.Manifest());
    RoadmapAfterPlanIs(p, disk, c.dumps(Obj(DeletedObject(document, i))), path, None, DeleteInRoadmap(id));
  }

  lemma DeletedTextIsRead(current: string, id: string)
    requires '\r' !in current && AtMostOneCarries(Split(current), id)
    ensures
      var after := ReadAfter(current, DeleteText(current, id));
      && (NoneCarries(Split(current), id) ==> after == current)
      && forall n :: 0 <= n < |Split(current)| && Carries(Split(current)[n], id) ==> IsCutAt(current, after, n, id)
  {
    DeletedIsRead(current, id);
    forall n | 0 <= n < |Split(current)| && Carries(Split(current)[n], id)
      ensures IsCutAt(current, ReadAfter(current, DeleteText(current, id)), n, id)
    {
      FindItemIs(Split(current), id, n);
      CutLinesAreSplit(Split(current), id, n);
    }
  }

  lemma CutLinesAreSplit(lines: seq<string>, id: string, n: nat)
    requires n < |lines| && Carries(lines[n], id) && AtMostOneCarries(lines, id)
    requires forall i :: 0 <= i < |lines| ==> '\n' !in lines[i]
    ensures Split(Join(Without(lines, n))) == if |lines| > 1 then Without(lines, n) else [""]
    ensures NoneCarries(Without(lines, n), id)
  {
    RemovedCarriesNone(lines, id, n);
    if |lines| > 1 {
      SplitJoin(Without(lines, n));
    }
  }
}
