/** The lines the roadmap editor writes, letter by letter. */
module RoadmapLines {
  import opened Common
  import opened Lines
  import opened TicketIds
  import opened RoadmapParse
  import opened RoadmapEdit
  import opened RoadmapItems
  import opened RoadmapLaws

  /** The label an item gets. */
  function Labelled(id: string, title: string): string { "**" + id + "** \U{2014} " + title }

  lemma LabelIs(id: string, title: string)
    ensures RoadmapLabel(id, title) == Labelled(id, title)
    ensures NewItemLine(id, title) == "- **" + id + "** \U{2014} " + title
  {
    assert "**" + " \U{2014} " == "** \U{2014} ";
    assert "- " + "**" == "- **";
  }

  /** The old line up to its label, with indentation, bullet, gap and checkbox, and the new
      label behind it. */
  ghost predicate IsRelabelled(line: string, written: string, id: string, title: string) {
    exists n: nat, a: nat, gap: nat :: IsRelabelledAt(line, written, id, title, n, a, gap)
  }

  ghost predicate IsRelabelledAt(line: string, written: string, id: string, title: string, n: nat, a: nat, gap: nat) {
    && n <= |line| && IsPrefix(line[..n], a, gap) && (n < |line| ==> !IsSpace(line[n]))
    && written == line[..n] + Labelled(id, title)
  }

  /** One line more, and all others as they were. */
  ghost predicate IsInserted(before: seq<string>, after: seq<string>, line: string) {
    exists at: nat :: at <= |before| && after == Inserted(before, at, line)
  }

  /** A create that finds its section writes one line, a plain item with the bold id. */
  lemma CreatedLineIs(text: string, milestone: string, id: string, title: string)
    requires MatchesIdPattern(id) && '\n' !in title && SectionExists(Split(text), Some(milestone))
    ensures
      var created := CreateText(text, Some(milestone), id, title);
      created.Some? && IsInserted(Split(text), Split(created.value), "- **" + id + "** \U{2014} " + title)
  {
    LabelIs(id, title);
    LineHasNoNewline(id, title);
    InsertedIsSplit(Split(text), TargetIndex(Split(text), milestone).value, NewItemLine(id, title));
  }

  lemma InsertedIsSplit(lines: seq<string>, at: nat, line: string)
    requires at <= |lines| && '\n' !in line && NoNewlines(lines)
    ensures Split(Join(Inserted(lines, at, line))) == Inserted(lines, at, line)
  {
    SplitJoin(Inserted(lines, at, line));
  }

  /** Line `i` stands in the section that line `h` opens. */
  ghost predicate IsUnder(lines: seq<string>, h: nat, i: nat, milestone: string)
    requires h < i < |lines|
  {
    OpensSection(lines[h], milestone) && forall k :: h < k <= i ==> !IsHeading(lines[k])
  }

  /** Whether an edit leaves the item where it is: no milestone was asked for, or it stands in
      a matching section, or no section matches. */
  ghost predicate StaysInPlace(lines: seq<string>, i: nat, milestone: Option<string>)
    requires i < |lines|
  {
    || milestone.None?
    || (exists h :: 0 <= h < i && IsUnder(lines, h, i, milestone.value))
    || (forall k :: 0 <= k < |lines| ==> !OpensSection(lines[k], milestone.value))
  }

  /** An edit relabels the first item that names the ticket where it stands, and keeps what is
      before its label; or takes that line out and writes a plain one in the right section. */
  lemma EditedLineIs(text: string, id: string, milestone: Option<string>, title: string, i: nat)
    requires '\n' !in title && i < |Split(text)| && Carries(Split(text)[i], id)
    requires forall k :: 0 <= k < i ==> !Carries(Split(text)[k], id)
    ensures
      var lines, edited := Split(text), EditText(text, id, milestone, title);
      && edited.Some?
      && if StaysInPlace(lines, i, milestone) then IsRelabelledOnly(lines, Split(edited.value), i, id, title)
         else IsInserted(Without(lines, i), Split(edited.value), "- **" + id + "** \U{2014} " + title)
  {
    var lines := Split(text);
    FindItemIs(lines, id, i);
    FoundLooksLikeId(lines, id);
    ItemIsNoHeading(lines[i]);
    PlaceIs(lines, i, milestone);
    if StaysInPlace(lines, i, milestone) {
      KeptLineIs(text, i, id, milestone, title);
    } else {
      MovedLineIs(text, i, id, milestone.value, title);
    }
  }

  /** Line `i` is relabelled, and all others are as they were. */
  ghost predicate IsRelabelledOnly(before: seq<string>, after: seq<string>, i: nat, id: string, title: string) {
    && i < |before| && |after| == |before| && after == before[i := after[i]]
    && IsRelabelled(before[i], after[i], id, title)
  }

  lemma PlaceIs(lines: seq<string>, i: nat, milestone: Option<string>)
    requires i < |lines| && !IsHeading(lines[i])
    ensures StaysInPlace(lines, i, milestone) <==>
            InTargetSection(lines, i, milestone) || FindMatchingHeading(lines, milestone.value).None?
  {
    if milestone.Some? {
      if InTargetSection(lines, i, milestone) {
        assert IsUnder(lines, HeadingFor(lines, i).value, i, milestone.value);
      }
      forall h | 0 <= h < i && IsUnder(lines, h, i, milestone.value)
        ensures InTargetSection(lines, i, milestone)
      {
        HeadingForIs(lines, h, i);
      }
    }
  }

  lemma RelabelledIs(lines: seq<string>, i: nat, id: string, title: string)
    requires i < |lines| && IsItem(lines[i]) && LeadingSpaces(lines[i]) < |lines[i]| && NoNewlines(lines)
    requires MatchesIdPattern(id) && '\n' !in title
    ensures
      var after := Split(Join(lines[i := RebuildItemLine(lines[i], id, title)]));
      IsRelabelledOnly(lines, after, i, id, title)
  {
    var line := RebuildItemLine(lines[i], id, title);
    RelabelledNoNewlines(lines, i, id, title);
    SplitJoin(lines[i := line]);
    RebuiltLineKeepsPrefix(lines[i], id, title);
    LabelIs(id, title);
    var n, a := PrefixLength(lines[i]), LeadingSpaces(lines[i]);
    assert IsRelabelledAt(lines[i], line, id, title, n, a, VisibleFrom(lines[i], a + 1));
  }

  lemma KeptLineIs(text: string, i: nat, id: string, milestone: Option<string>, title: string)
    requires FindItem(Split(text), id) == Some(i) && MatchesIdPattern(id) && '\n' !in title
    requires InTargetSection(Split(text), i, milestone) || FindMatchingHeading(Split(text), milestone.value).None?
    ensures
      var edited := EditText(text, id, milestone, title);
      edited.Some? && IsRelabelledOnly(Split(text), Split(edited.value), i, id, title)
  {
    ItemHasBullet(Split(text)[i]);
    EditStays(text, i, id, milestone, title);
    RelabelledIs(Split(text), i, id, title);
  }

  lemma MovedLineIs(text: string, i: nat, id: string, milestone: string, title: string)
    requires FindItem(Split(text), id) == Some(i) && MatchesIdPattern(id) && '\n' !in title
    requires !InTargetSection(Split(text), i, Some(milestone))
    requires FindMatchingHeading(Split(text), milestone).Some?
    ensures
      var edited := EditText(text, id, Some(milestone), title);
      && edited.Some?
      && IsInserted(Without(Split(text), i), Split(edited.value), "- **" + id + "** \U{2014} " + title)
  {
    var lines := Split(text);
    RemovalKeepsSections(lines, i, milestone);
    MoveIsText(text, i, id, milestone, title);
    MovedIsWritten(lines, i, id, milestone, title);
  }

  lemma MovedIsWritten(lines: seq<string>, i: nat, id: string, milestone: string, title: string)
    requires i < |lines| && NoNewlines(lines) && MatchesIdPattern(id) && '\n' !in title
    requires TargetIndex(Without(lines, i), milestone).Some?
    ensures
      var after := Split(Join(MovedLines(lines, i, milestone, id, title).0));
      IsInserted(Without(lines, i), after, "- **" + id + "** \U{2014} " + title)
  {
    LabelIs(id, title);
    LineHasNoNewline(id, title);
    InsertedIsSplit(Without(lines, i), MovedLines(lines, i, milestone, id, title).1, NewItemLine(id, title));
  }

  // ---- Checkboxes ---------------------------------------------------------------------

  predicate IsMark(c: char) { c == ' ' || c == 'x' || c == 'X' }

  /** A bracketed character and a space. */
  predicate IsBracketed(box: string, c: char) {
    |box| == 4 && box[0] == '[' && box[1] == c && box[2] == ']' && box[3] == ' '
  }

  /** An item of a list with a box: a blank or crossed one is kept when the item is relabelled,
      and is no part of its text when it is read; any other bracket is text. */
  lemma BoxIsKept(line: string, box: string, text: string, c: char, id: string, title: string)
    requires IsBracketed(box, c) && text != "" && !IsSpace(text[0]) && line == "- " + (box + text)
    ensures LeadingSpaces(line) < |line|
    ensures RebuildItemLine(line, id, title) == (if IsMark(c) then "- " + box else "- ") + Labelled(id, title)
    ensures ParseItem(box + text).text == if IsMark(c) then Strip(text) else Strip(box + text)
  {
    LabelIs(id, title);
    BoxedPrefix(line, box, text, c);
    BoxedText(box, text, c);
  }

  lemma BoxedPrefix(line: string, box: string, text: string, c: char)
    requires IsBracketed(box, c) && text != "" && !IsSpace(text[0]) && line == "- " + (box + text)
    ensures LeadingSpaces(line) == 0 && PrefixLength(line) == if IsMark(c) then 6 else 2
    ensures line[..2] == "- " && line[..6] == "- " + box
  {
    VisibleFromIs(line, 0, 0);
    VisibleFromIs(line, 1, 2);
    if IsMark(c) {
      VisibleFromIs(line, 5, 6);
    }
  }

  lemma BoxedText(box: string, text: string, c: char)
    requires IsBracketed(box, c) && text != "" && !IsSpace(text[0])
    ensures ParseItem(box + text).text == if IsMark(c) then Strip(text) else Strip(box + text)
  {
    if IsMark(c) {
      assert (box + text)[3..] == " " + text;
      StripLeftSkips(" ", text);
    }
  }
}
