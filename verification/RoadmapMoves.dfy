/** Deletes, and edits that move an item to another section, as the parser sees them. */
module RoadmapMoves {
  import opened Common
  import opened Lines
  import opened TicketIds
  import opened RoadmapParse
  import opened RoadmapEdit
  import opened RoadmapItems
  import opened RoadmapLaws

  /** One item leaves one milestone. */
  function DropItem(ms: seq<Milestone>, k: nat, j: nat): seq<Milestone> {
    if k < |ms| && j < |ms[k].items|
    then ms[k := Milestone(ms[k].name, Without(ms[k].items, j))]
    else ms
  }

  /** No milestone is renamed by that, so the first match stays where it is. */
  lemma DropKeepsNames(ms: seq<Milestone>, k: nat, j: nat, milestone: string)
    ensures FirstNamed(DropItem(ms, k, j), milestone) == FirstNamed(ms, milestone)
  {
    var left := DropItem(ms, k, j);
    assert forall i :: 0 <= i < |ms| ==> left[i].name == ms[i].name;
  }

  /** An item line taken from a section takes one item from it. */
  lemma {:induction false} CutFromSection(body: seq<Line>, i: nat)
    requires i < |body| && body[i].Listed? && forall k :: 0 <= k <= i ==> !body[k].Heading?
    ensures
      var items, j := SectionItems(body), |SectionItems(body[..i])|;
      && j < |items| && items[j] == body[i].item
      && SectionItems(Without(body, i)) == Without(items, j)
      && Milestones(Without(body, i)) == Milestones(body)
  {
    if i == 0 {
      assert Without(body, i) == body[1..] && body[..0] == [];
    } else {
      assert Without(body, i)[1..] == Without(body[1..], i - 1);
      assert body[..i][1..] == body[1..][..i - 1];
      CutFromSection(body[1..], i - 1);
      if body[0].Listed? {
        CutBehind(body[0], SectionItems(body[1..]), |SectionItems(body[1..][..i - 1])|);
      }
    }
  }

  lemma CutBehind(first: Line, items: seq<Item>, j: nat)
    requires j < |items| && first.Listed?
    ensures Without([first.item] + items, j + 1) == [first.item] + Without(items, j)
  {
  }

  /** A line taken from behind a heading is not in the section before it. */
  lemma {:induction false} CutBeyondHeading(body: seq<Line>, h: nat, i: nat)
    requires h < i < |body| && body[h].Heading?
    ensures SectionItems(Without(body, i)) == SectionItems(body)
  {
    if h > 0 && !body[0].Heading? {
      assert Without(body, i)[1..] == Without(body[1..], i - 1);
      CutBeyondHeading(body[1..], h - 1, i - 1);
    }
  }

  lemma CountBefore(lines: seq<Line>, h: nat)
    requires 0 < h <= |lines|
    ensures HeadingCount(lines[..h]) == (if lines[0].Heading? then 1 else 0) + HeadingCount(lines[1..][..h - 1])
  {
    assert lines[..h][1..] == lines[1..][..h - 1];
  }

  lemma SameSlice(lines: seq<Line>, h: nat, i: nat)
    requires 0 < h < i < |lines|
    ensures lines[h + 1..i] == lines[1..][h..i - 1]
  {
  }

  /** Taking one item line out of a document takes one item out of one milestone. */
  lemma {:induction false} CutFromDocument(lines: seq<Line>, h: nat, i: nat)
    requires h < i < |lines| && lines[h].Heading? && lines[i].Listed?
    requires forall k :: h < k <= i ==> !lines[k].Heading?
    ensures
      var ms, k, j := Milestones(lines), HeadingCount(lines[..h]), |SectionItems(lines[h + 1..i])|;
      && k < |ms| && j < |ms[k].items| && ms[k].items[j] == lines[i].item
      && Milestones(Without(lines, i)) == DropItem(ms, k, j)
  {
    var rest := lines[1..];
    assert Without(lines, i)[1..] == Without(rest, i - 1);
    if h == 0 {
      CutFromSection(rest, i - 1);
      assert lines[..0] == [] && lines[1..i] == rest[..i - 1];
    } else {
      CutFromDocument(rest, h - 1, i - 1);
      CountBefore(lines, h);
      SameSlice(lines, h, i);
      CutBeyondHeading(rest, h - 1, i - 1);
      if lines[0].Heading? {
        DropBehind(Milestone(lines[0].name, SectionItems(rest)), Milestones(rest), HeadingCount(rest[..h - 1]),
                   |SectionItems(rest[h..i - 1])|);
      }
    }
  }

  lemma DropBehind(first: Milestone, ms: seq<Milestone>, k: nat, j: nat)
    ensures DropItem([first] + ms, k + 1, j) == [first] + DropItem(ms, k, j)
  {
  }

  /** The milestones left when the item line `i` goes: one item less in the milestone it stood
      in, or nothing less when it stood before every heading. */
  function LeftWithout(lines: seq<string>, i: nat): seq<Milestone>
    requires i < |lines|
  {
    var kinds := ClassifyAll(lines);
    match HeadingFor(lines, i)
    case None => Milestones(kinds)
    case Some(h) =>
      if h < i then DropItem(Milestones(kinds), HeadingCount(kinds[..h]), |SectionItems(kinds[h + 1..i])|)
      else Milestones(kinds)
  }

  lemma ClassifyWithout(lines: seq<string>, i: nat)
    requires i < |lines|
    ensures ClassifyAll(Without(lines, i)) == Without(ClassifyAll(lines), i)
  {
  }

  lemma WithoutIsParsed(lines: seq<string>, i: nat)
    requires i < |lines| && IsItem(lines[i])
    ensures Milestones(ClassifyAll(Without(lines, i))) == LeftWithout(lines, i)
  {
    ItemIsNoHeading(lines[i]);
    ClassifyWithout(lines, i);
    var kinds := ClassifyAll(lines);
    match HeadingFor(lines, i) {
      case None => CutFromSection(kinds, i);
      case Some(h) => CutFromDocument(kinds, h, i);
    }
  }

  lemma WithoutHasOnlyNewlines(lines: seq<string>, i: nat)
    requires i < |lines| && OnlyNewlines(Join(lines))
    ensures OnlyNewlines(Join(Without(lines, i)))
  {
    OnlyNewlinesJoin(lines);
    OnlyNewlinesJoin(Without(lines, i));
  }

  /** Text whose lines are given parses as they do; no line at all is the empty text. */
  lemma JoinedIsParsed(lines: seq<string>)
    requires NoNewlines(lines) && OnlyNewlines(Join(lines))
    ensures Parsed(Join(lines)) == Milestones(ClassifyAll(lines))
  {
    if lines != [] {
      LinesAreParsed(lines);
    }
  }

  /** Deleting agrees with the parser: it changes nothing exactly when no item carries the id,
      and otherwise the parsed document is the old one without that item. */
  lemma DeleteAgreesWithParser(text: string, id: string)
    requires OnlyNewlines(text)
    ensures
      var item, deleted := FindItem(Split(text), id), DeleteText(text, id);
      && (deleted.Some? <==> item.Some?)
      && (deleted.Some? ==>
           OnlyNewlines(deleted.value) && Parsed(deleted.value) == LeftWithout(Split(text), item.value))
  {
    var lines := Split(text);
    var item := FindItem(lines, id);
    if item.Some? {
      JoinSplit(text);
      WithoutHasOnlyNewlines(lines, item.value);
      WithoutIsParsed(lines, item.value);
      JoinedIsParsed(Without(lines, item.value));
    }
  }

  /** A move is a delete followed by a create. */
  lemma MoveIsDeleteThenCreate(text: string, id: string, milestone: string, title: string, i: nat)
    requires FindItem(Split(text), id) == Some(i) && !InTargetSection(Split(text), i, Some(milestone))
    requires FindMatchingHeading(Split(text), milestone).Some?
    ensures DeleteText(text, id).Some?
    ensures CreateText(DeleteText(text, id).value, Some(milestone), id, title).Some?
    ensures EditText(text, id, Some(milestone), title)
            == CreateText(DeleteText(text, id).value, Some(milestone), id, title)
  {
    var left := Without(Split(text), i);
    RemovalKeepsSections(Split(text), i, milestone);
    assert NoNewlines(left);
    assert left != [] by {
      assert FindMatchingHeading([], milestone).None?;
    }
    SplitJoin(left);
  }

  lemma LeftKeepsNames(lines: seq<string>, i: nat, milestone: string)
    requires i < |lines|
    ensures FirstNamed(LeftWithout(lines, i), milestone) == FirstNamed(Milestones(ClassifyAll(lines)), milestone)
  {
    var kinds := ClassifyAll(lines);
    var h := HeadingFor(lines, i);
    if h.Some? && h.value < i {
      DropKeepsNames(Milestones(kinds), HeadingCount(kinds[..h.value]), |SectionItems(kinds[h.value + 1..i])|,
                     milestone);
    }
  }

  /** An edit that moves an item agrees with the parser: the item leaves its milestone, and the
      new one, with its id and label, is last in the first milestone whose name matches. */
  lemma MoveAgreesWithParser(text: string, id: string, milestone: string, title: string, i: nat)
    requires OnlyNewlines(text) && OnlyNewlines(title) && '\n' !in title
    requires FindItem(Split(text), id) == Some(i) && !InTargetSection(Split(text), i, Some(milestone))
    requires FindMatchingHeading(Split(text), milestone).Some?
    ensures
      var edited, left := EditText(text, id, Some(milestone), title), LeftWithout(Split(text), i);
      var k := FirstNamed(Parsed(text), milestone);
      && edited.Some? && k.Some? && k.value < |left|
      && Parsed(edited.value) == AddItem(left, k.value, Item(Strip(RoadmapLabel(id, title)), Some(id)))
  {
    FoundLooksLikeId(Split(text), id);
    DeleteAgreesWithParser(text, id);
    MoveIsDeleteThenCreate(text, id, milestone, title, i);
    CreateAgreesWithParser(DeleteText(text, id).value, milestone, id, title);
    ParserReadsEditorLines(text);
    LeftKeepsNames(Split(text), i, milestone);
  }
}
