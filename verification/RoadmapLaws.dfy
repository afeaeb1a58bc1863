/** The algebra of roadmap edits, and the editor's agreement with the parser. */
module RoadmapLaws {
  import opened Common
  import opened Lines
  import opened TicketIds
  import opened RoadmapParse
  import opened RoadmapEdit
  import opened RoadmapItems

  ghost predicate AtMostOneCarries(lines: seq<string>, id: string) {
    forall i, j :: 0 <= i < j < |lines| ==> !(Carries(lines[i], id) && Carries(lines[j], id))
  }

  ghost predicate NoneCarries(lines: seq<string>, id: string) {
    forall i :: 0 <= i < |lines| ==> !Carries(lines[i], id)
  }

  ghost predicate NoNewlines(lines: seq<string>) {
    forall i :: 0 <= i < |lines| ==> '\n' !in lines[i]
  }

  // ---- Lists of lines -----------------------------------------------------------------

  lemma WithoutInserted(lines: seq<string>, at: nat, line: string)
    requires 0 < at <= |lines|
    ensures Without(Inserted(lines, at, line), at) == lines
  {
  }

  lemma FindItemIs(lines: seq<string>, id: string, i: nat)
    requires i < |lines| && Carries(lines[i], id) && forall k :: 0 <= k < i ==> !Carries(lines[k], id)
    ensures FindItem(lines, id) == Some(i)
  {
  }

  /** The heading a line sits under depends only on the lines from that heading on. */
  lemma HeadingForIs(lines: seq<string>, h: nat, i: nat)
    requires h <= i < |lines| && IsHeading(lines[h]) && forall k :: h < k <= i ==> !IsHeading(lines[k])
    ensures HeadingFor(lines, i) == Some(h)
  {
  }

  /** Replacing an item by an item moves no heading. */
  lemma RelabelKeepsSection(lines: seq<string>, i: nat, line: string, milestone: Option<string>)
    requires i < |lines| && IsItem(lines[i]) && IsItem(line)
    ensures InTargetSection(lines[i := line], i, milestone) <==> InTargetSection(lines, i, milestone)
  {
    ItemIsNoHeading(lines[i]);
    ItemIsNoHeading(line);
    var before, after := HeadingFor(lines, i), HeadingFor(lines[i := line], i);
    if before.Some? {
      HeadingForIs(lines[i := line], before.value, i);
    } else if after.Some? {
      HeadingForIs(lines, after.value, i);
    }
  }

  /** Removing an item removes no section. */
  lemma RemovalKeepsSections(lines: seq<string>, i: nat, milestone: string)
    requires i < |lines| && IsItem(lines[i])
    ensures FindMatchingHeading(Without(lines, i), milestone).Some? <==> FindMatchingHeading(lines, milestone).Some?
  {
    ItemIsNoHeading(lines[i]);
    var w := Without(lines, i);
    assert forall k :: 0 <= k < |lines| && k != i ==> lines[k] == w[if k < i then k else k - 1];
    assert forall k :: 0 <= k < |w| ==> w[k] == lines[if k < i then k else k + 1];
  }

  /** A created item ends inside the first section that matches. */
  lemma InsertedIsInTarget(lines: seq<string>, milestone: string, id: string, title: string)
    requires MatchesIdPattern(id) && TargetIndex(lines, milestone).Some?
    ensures
      var at := TargetIndex(lines, milestone).value;
      InTargetSection(Inserted(lines, at, NewItemLine(id, title)), at, Some(milestone))
  {
    var h, at := FindMatchingHeading(lines, milestone).value, TargetIndex(lines, milestone).value;
    var line := NewItemLine(id, title);
    var after := Inserted(lines, at, line);
    NewItemLineIsRead(id, title);
    assert after[h] == lines[h];
    forall k | h < k <= at ensures !IsHeading(after[k]) {
      if k < at { assert after[k] == lines[k]; }
    }
    HeadingForIs(after, h, at);
  }

  // ---- Editing ------------------------------------------------------------------------

  /** An edit, seen as lines: the item at `i` became the item at `j`. */
  datatype Edited = Edited(before: seq<string>, i: nat, after: seq<string>, j: nat)

  /** What an edit of an item that is alone in naming its ticket does. */
  ghost predicate IsEdit(e: Edited, text: string, id: string, milestone: Option<string>, title: string) {
    && e.before == Split(text) && FindItem(e.before, id) == Some(e.i)
    && EditText(text, id, milestone, title) == Some(Join(e.after))
    && Split(Join(e.after)) == e.after && e.j < |e.after|
    && Without(e.after, e.j) == Without(e.before, e.i)
    && Carries(e.after[e.j], id)
    && LeadingSpaces(e.after[e.j]) < |e.after[e.j]|
    && RebuildItemLine(e.after[e.j], id, title) == e.after[e.j]
    && NoneCarries(Without(e.after, e.j), id)
    && if InTargetSection(e.after, e.j, milestone) then true
       else FindMatchingHeading(e.before, milestone.value).None? && e.i == e.j
  }

  lemma RemovedCarriesNone(lines: seq<string>, id: string, i: nat)
    requires i < |lines| && Carries(lines[i], id) && AtMostOneCarries(lines, id)
    ensures NoneCarries(Without(lines, i), id)
  {
  }

  /** The lines after a move: the item's line gone, a fresh one in the target section. */
  function MovedLines(lines: seq<string>, i: nat, milestone: string, id: string, title: string): (r: (seq<string>, nat))
    requires i < |lines| && TargetIndex(Without(lines, i), milestone).Some?
    ensures r.1 < |r.0|
  {
    var at := TargetIndex(Without(lines, i), milestone).value;
    (Inserted(Without(lines, i), at, NewItemLine(id, title)), at)
  }

  lemma MoveIsText(text: string, i: nat, id: string, milestone: string, title: string)
    requires FindItem(Split(text), id) == Some(i)
    requires !InTargetSection(Split(text), i, Some(milestone))
    requires TargetIndex(Without(Split(text), i), milestone).Some?
    ensures EditText(text, id, Some(milestone), title) == Some(Join(MovedLines(Split(text), i, milestone, id, title).0))
  {
    var w := Without(Split(text), i);
    assert NoNewlines(w);
    assert FindMatchingHeading([], milestone).None?;
    SplitJoin(w);
  }

  lemma MoveKeepsNewlines(lines: seq<string>, i: nat, milestone: string, id: string, title: string)
    requires i < |lines| && TargetIndex(Without(lines, i), milestone).Some?
    requires NoNewlines(lines) && MatchesIdPattern(id) && '\n' !in title
    ensures
      var after := MovedLines(lines, i, milestone, id, title).0;
      Split(Join(after)) == after
  {
    LineHasNoNewline(id, title);
    SplitJoin(MovedLines(lines, i, milestone, id, title).0);
  }

  lemma EditMoves(text: string, id: string, milestone: string, title: string) returns (e: Edited)
    requires LooksLikeTicketId(id) && '\n' !in title
    requires AtMostOneCarries(Split(text), id) && FindItem(Split(text), id).Some?
    requires !InTargetSection(Split(text), FindItem(Split(text), id).value, Some(milestone))
    requires FindMatchingHeading(Split(text), milestone).Some?
    ensures IsEdit(e, text, id, Some(milestone), title)
  {
    var lines := Split(text);
    var i := FindItem(lines, id).value;
    var w := Without(lines, i);
    RemovalKeepsSections(lines, i, milestone);
    var at := TargetIndex(w, milestone).value;
    e := Edited(lines, i, MovedLines(lines, i, milestone, id, title).0, at);
    MoveIsText(text, i, id, milestone, title);
    MoveKeepsNewlines(lines, i, milestone, id, title);
    NewItemLineCarries(id, title);
    WithoutInserted(w, at, NewItemLine(id, title));
    InsertedIsInTarget(w, milestone, id, title);
    RemovedCarriesNone(lines, id, i);
  }

  lemma LineHasNoNewline(id: string, title: string)
    requires MatchesIdPattern(id) && '\n' !in title
    ensures '\n' !in RoadmapLabel(id, title) && '\n' !in NewItemLine(id, title)
  {
    assert forall k :: 0 <= k < |id| ==> IsIdChar(id[k]);
  }

  lemma EditRelabels(text: string, id: string, milestone: Option<string>, title: string) returns (e: Edited)
    requires LooksLikeTicketId(id) && '\n' !in title
    requires AtMostOneCarries(Split(text), id) && FindItem(Split(text), id).Some?
    requires InTargetSection(Split(text), FindItem(Split(text), id).value, milestone)
             || FindMatchingHeading(Split(text), milestone.value).None?
    ensures IsEdit(e, text, id, milestone, title) && e.i == e.j
    ensures LeadingSpaces(e.before[e.i]) < |e.before[e.i]|
    ensures e.after[e.j] == RebuildItemLine(e.before[e.i], id, title)
  {
    var lines := Split(text);
    var i := FindItem(lines, id).value;
    ItemHasBullet(lines[i]);
    var line := RebuildItemLine(lines[i], id, title);
    ItemIsBulleted(lines[i]);
    RebuiltLineCarries(lines[i], id, title);
    LineHasNoNewline(id, title);
    var after := lines[i := line];
    SplitJoin(after);
    RelabelKeepsSection(lines, i, line, milestone);
    RemovedCarriesNone(lines, id, i);
    assert Without(after, i) == Without(lines, i);
    EditStays(text, i, id, milestone, title);
    e := Edited(lines, i, after, i);
  }

  /** Joining and splitting lines again makes no section appear. */
  lemma NoSectionAfterJoin(lines: seq<string>, milestone: string)
    requires NoNewlines(lines) && FindMatchingHeading(lines, milestone).None?
    ensures FindMatchingHeading(Split(Join(lines)), milestone).None?
  {
    if lines == [] {
      assert Split("") == [""] && Strip("") == "";
    } else {
      SplitJoin(lines);
    }
  }

  lemma EditOf(text: string, id: string, milestone: Option<string>, title: string) returns (e: Edited)
    requires LooksLikeTicketId(id) && '\n' !in title
    requires AtMostOneCarries(Split(text), id) && FindItem(Split(text), id).Some?
    ensures IsEdit(e, text, id, milestone, title)
    ensures (milestone.None? || FindMatchingHeading(Split(text), milestone.value).None?
             || InTargetSection(e.before, e.i, milestone)) ==>
      e.i == e.j && LeadingSpaces(e.before[e.i]) < |e.before[e.i]|
      && e.after[e.j] == RebuildItemLine(e.before[e.i], id, title)
  {
    var lines := Split(text);
    var i := FindItem(lines, id).value;
    if InTargetSection(lines, i, milestone) || FindMatchingHeading(lines, milestone.value).None? {
      e := EditRelabels(text, id, milestone, title);
      ItemHasBullet(lines[i]);
    } else {
      e := EditMoves(text, id, milestone.value, title);
    }
  }

  /** One item line of the ticket left `before` and one entered `after`; nothing else moved. */
  ghost predicate OneItemMoved(before: seq<string>, i: nat, after: seq<string>, j: nat, id: string) {
    && i < |before| && j < |after|
    && Carries(before[i], id) && Carries(after[j], id)
    && Without(after, j) == Without(before, i)
  }

  ghost predicate SectionExists(lines: seq<string>, milestone: Option<string>) {
    milestone.Some? && FindMatchingHeading(lines, milestone.value).Some?
  }

  /** Only an id the parser can read is ever found. */
  lemma FoundLooksLikeId(lines: seq<string>, id: string)
    requires FindItem(lines, id).Some?
    ensures LooksLikeTicketId(id)
  {
    ExtractedLooksLikeId(lines[FindItem(lines, id).value], 0);
  }

  /** One item line went and came back, inside the section the edit wants if there is one. */
  ghost predicate IsOneItemEdit(before: seq<string>, after: seq<string>, id: string, milestone: Option<string>) {
    exists i, j ::
      OneItemMoved(before, i, after, j, id)
      && (SectionExists(before, milestone) ==> InTargetSection(after, j, milestone))
  }

  /** An edit changes nothing exactly when no item names the ticket. Otherwise it takes one
      item line out and puts one back: every other line keeps its text and order, and when
      some section matches the milestone the item ends inside a matching one. */
  lemma EditTouchesOneItem(text: string, id: string, milestone: Option<string>, title: string)
    requires '\n' !in title && AtMostOneCarries(Split(text), id)
    ensures
      var edited := EditText(text, id, milestone, title);
      && (edited.None? <==> NoneCarries(Split(text), id))
      && (edited.Some? ==> IsOneItemEdit(Split(text), Split(edited.value), id, milestone))
  {
    if EditText(text, id, milestone, title).Some? {
      var i, j := EditedIndices(text, id, milestone, title);
    }
  }

  lemma EditedIndices(text: string, id: string, milestone: Option<string>, title: string) returns (i: nat, j: nat)
    requires '\n' !in title && AtMostOneCarries(Split(text), id)
    requires EditText(text, id, milestone, title).Some?
    ensures
      var before, after := Split(text), Split(EditText(text, id, milestone, title).value);
      && OneItemMoved(before, i, after, j, id)
      && (SectionExists(before, milestone) ==> InTargetSection(after, j, milestone))
      && Classify(after[j]) == Listed(Item(Strip(RoadmapLabel(id, title)), Some(id)))
  {
    FoundLooksLikeId(Split(text), id);
    var e := EditOf(text, id, milestone, title);
    i, j := e.i, e.j;
    ItemIsBulleted(e.after[j]);
    RebuiltLineIsRead(e.after[j], id, title);
  }

  /** Editing twice is editing once. */
  lemma EditIsIdempotent(text: string, id: string, milestone: Option<string>, title: string)
    requires '\n' !in title && AtMostOneCarries(Split(text), id)
    ensures
      var once := EditText(text, id, milestone, title);
      once.Some? ==> EditText(once.value, id, milestone, title) == once
  {
    if FindItem(Split(text), id).Some? {
      FoundLooksLikeId(Split(text), id);
      var e := EditOf(text, id, milestone, title);
      EditedIsSettled(e, text, id, milestone, title);
      FindEdited(e, text, id, milestone, title);
      EditStays(Join(e.after), e.j, id, milestone, title);
      assert e.after[e.j := RebuildItemLine(e.after[e.j], id, title)] == e.after;
    }
  }

  /** The edited item is where the edit wants it, or no section is. */
  lemma EditedIsSettled(e: Edited, text: string, id: string, milestone: Option<string>, title: string)
    requires IsEdit(e, text, id, milestone, title)
    ensures InTargetSection(e.after, e.j, milestone) || FindMatchingHeading(e.after, milestone.value).None?
  {
    if !InTargetSection(e.after, e.j, milestone) {
      RemovalKeepsSections(e.before, e.i, milestone.value);
      RemovalKeepsSections(e.after, e.j, milestone.value);
    }
  }

  /** An item that is where the edit wants it, or has nowhere to go, is relabelled there. */
  lemma EditStays(text: string, i: nat, id: string, milestone: Option<string>, title: string)
    requires FindItem(Split(text), id) == Some(i) && LeadingSpaces(Split(text)[i]) < |Split(text)[i]|
    requires InTargetSection(Split(text), i, milestone) || FindMatchingHeading(Split(text), milestone.value).None?
    ensures EditText(text, id, milestone, title)
            == Some(Join(Split(text)[i := RebuildItemLine(Split(text)[i], id, title)]))
  {
    if !InTargetSection(Split(text), i, milestone) {
      RemovalKeepsSections(Split(text), i, milestone.value);
      NoSectionAfterJoin(Without(Split(text), i), milestone.value);
    }
  }

  /** After an edit the edited line is the one that is found. */
  lemma FindEdited(e: Edited, text: string, id: string, milestone: Option<string>, title: string)
    requires IsEdit(e, text, id, milestone, title)
    ensures FindItem(e.after, id) == Some(e.j)
  {
    forall k | 0 <= k < e.j ensures !Carries(e.after[k], id) {
      assert Without(e.after, e.j)[k] == e.after[k];
    }
    FindItemIs(e.after, id, e.j);
  }

  /** Deleting after an edit is deleting. */
  lemma DeleteAbsorbsEdit(text: string, id: string, milestone: Option<string>, title: string)
    requires '\n' !in title && AtMostOneCarries(Split(text), id)
    ensures
      var edited := EditText(text, id, milestone, title);
      edited.Some? ==> DeleteText(edited.value, id) == DeleteText(text, id)
  {
    if FindItem(Split(text), id).Some? {
      FoundLooksLikeId(Split(text), id);
      var e := EditOf(text, id, milestone, title);
      FindEdited(e, text, id, milestone, title);
    }
  }

  // ---- Create, then delete ------------------------------------------------------------

  predicate HasDigit(id: string) { exists i :: 0 <= i < |id| && IsDigit(id[i]) }

  /** The document after the transform: a transform that answers `None` writes nothing. */
  function Applied(text: string, change: Option<string>): string {
    if change.Some? then change.value else text
  }

  lemma CreateThenDeleteWithDigit(text: string, at: nat, id: string, title: string)
    requires MatchesIdPattern(id) && '\n' !in title && NoneCarries(Split(text), id)
    requires HasDigit(id) && 0 < at <= |Split(text)|
    ensures DeleteText(Join(Inserted(Split(text), at, NewItemLine(id, title))), id) == Some(text)
  {
    var lines, line := Split(text), NewItemLine(id, title);
    var after := Inserted(lines, at, line);
    LineHasNoNewline(id, title);
    SplitJoin(after);
    NewItemLineCarries(id, title);
    forall k | 0 <= k < at ensures !Carries(after[k], id) { assert after[k] == lines[k]; }
    FindItemIs(after, id, at);
    WithoutInserted(lines, at, line);
    JoinSplit(text);
  }

  lemma CreateThenDeleteWithoutDigit(text: string, at: nat, id: string, title: string)
    requires MatchesIdPattern(id) && '\n' !in title && !HasDigit(id) && 0 < at <= |Split(text)|
    ensures
      var created := Join(Inserted(Split(text), at, NewItemLine(id, title)));
      DeleteText(created, id) == None && created != text
  {
    var after := Inserted(Split(text), at, NewItemLine(id, title));
    LineHasNoNewline(id, title);
    SplitJoin(after);
    forall k | 0 <= k < |after| ensures !Carries(after[k], id) { ExtractedLooksLikeId(after[k], 0); }
    assert |after| == |Split(text)| + 1;
  }

  /** Creating and then deleting an id that no item named gives back the text, character for
      character, exactly when the id has a digit or no section matches: the parser, and so
      the delete, cannot see a digitless id. */
  lemma CreateThenDeleteRestores(text: string, milestone: Option<string>, id: string, title: string)
    requires MatchesIdPattern(id) && '\n' !in title && NoneCarries(Split(text), id)
    ensures
      var created := CreateText(text, milestone, id, title);
      var after := Applied(text, created);
      Applied(after, DeleteText(after, id)) == text <==> HasDigit(id) || !SectionExists(Split(text), milestone)
  {
    var created := CreateText(text, milestone, id, title);
    if created.Some? {
      var at := TargetIndex(Split(text), milestone.value).value;
      if HasDigit(id) {
        CreateThenDeleteWithDigit(text, at, id, title);
      } else {
        CreateThenDeleteWithoutDigit(text, at, id, title);
      }
    }
  }

  // ---- The parser's view --------------------------------------------------------------

  /** Where a section that matches by name starts, counted in milestones. */
  function FirstNamed(ms: seq<Milestone>, milestone: string): (k: Option<nat>)
    ensures k.Some? ==> k.value < |ms| && HeadingMatches(ms[k.value].name, milestone)
    ensures k.Some? ==> forall i :: 0 <= i < k.value ==> !HeadingMatches(ms[i].name, milestone)
    ensures k.None? ==> forall i :: 0 <= i < |ms| ==> !HeadingMatches(ms[i].name, milestone)
  {
    if ms == [] then None
    else if HeadingMatches(ms[0].name, milestone) then Some(0)
    else match FirstNamed(ms[1..], milestone)
      case Some(k) => Some(k + 1)
      case None =>
        assert forall i :: 1 <= i < |ms| ==> ms[i] == ms[1..][i - 1];
        None
  }

  function HeadingCount(lines: seq<Line>): (n: nat)
    ensures n == |Milestones(lines)|
  {
    if lines == [] then 0 else (if lines[0].Heading? then 1 else 0) + HeadingCount(lines[1..])
  }

  function AddItem(ms: seq<Milestone>, k: nat, item: Item): seq<Milestone>
    requires k < |ms|
  {
    ms[k := Milestone(ms[k].name, ms[k].items + [item])]
  }

  /** An item put after a section's last item is parsed as the section's last item. */
  lemma {:induction false} InsertIntoSection(body: seq<Line>, at: nat, item: Item)
    requires at <= |body|
    requires forall k :: 0 <= k < at ==> !body[k].Heading?
    requires forall k :: at <= k < |body| && (forall m :: at <= m <= k ==> !body[m].Heading?) ==> !body[k].Listed?
    ensures
      var after := body[..at] + [Listed(item)] + body[at..];
      SectionItems(after) == SectionItems(body) + [item] && Milestones(after) == Milestones(body)
  {
    var after := body[..at] + [Listed(item)] + body[at..];
    if at == 0 {
      assert after == [Listed(item)] + body && after[1..] == body;
      NoItemsBeforeHeading(body);
    } else {
      assert after[1..] == body[1..][..at - 1] + [Listed(item)] + body[1..][at - 1..];
      forall k | at - 1 <= k < |body[1..]| && (forall m :: at - 1 <= m <= k ==> !body[1..][m].Heading?)
        ensures !body[1..][k].Listed?
      {
        assert forall m :: at <= m <= k + 1 ==> body[m] == body[1..][m - 1];
      }
      InsertIntoSection(body[1..], at - 1, item);
    }
  }

  lemma {:induction false} NoItemsBeforeHeading(body: seq<Line>)
    requires forall k :: 0 <= k < |body| && (forall m :: 0 <= m <= k ==> !body[m].Heading?) ==> !body[k].Listed?
    ensures SectionItems(body) == []
  {
    if body != [] && !body[0].Heading? {
      forall k | 0 <= k < |body[1..]| && (forall m :: 0 <= m <= k ==> !body[1..][m].Heading?)
        ensures !body[1..][k].Listed?
      {
        assert forall m :: 1 <= m <= k + 1 ==> body[m] == body[1..][m - 1];
      }
      NoItemsBeforeHeading(body[1..]);
    }
  }

  /** An item put behind a heading is not in the section before it. */
  lemma {:induction false} InsertBeyondHeading(body: seq<Line>, h: nat, at: nat, item: Item)
    requires h < at <= |body| && body[h].Heading?
    ensures SectionItems(body[..at] + [Listed(item)] + body[at..]) == SectionItems(body)
  {
    var after := body[..at] + [Listed(item)] + body[at..];
    if h > 0 && !body[0].Heading? {
      assert after[1..] == body[1..][..at - 1] + [Listed(item)] + body[1..][at - 1..];
      InsertBeyondHeading(body[1..], h - 1, at - 1, item);
    }
  }

  /** The same, anywhere in a document: only the section under heading `h` changes. */
  lemma {:induction false} InsertIntoDocument(lines: seq<Line>, h: nat, at: nat, item: Item)
    requires h < at <= |lines| && lines[h].Heading?
    requires forall k :: h < k < at ==> !lines[k].Heading?
    requires forall k :: at <= k < |lines| && (forall m :: at <= m <= k ==> !lines[m].Heading?) ==> !lines[k].Listed?
    ensures HeadingCount(lines[..h]) < |Milestones(lines)|
    ensures Milestones(lines)[HeadingCount(lines[..h])].name == lines[h].name
    ensures Milestones(lines[..at] + [Listed(item)] + lines[at..])
            == AddItem(Milestones(lines), HeadingCount(lines[..h]), item)
  {
    var after := lines[..at] + [Listed(item)] + lines[at..];
    var rest := lines[1..];
    assert after[1..] == rest[..at - 1] + [Listed(item)] + rest[at - 1..];
    forall k | at - 1 <= k < |rest| && (forall m :: at - 1 <= m <= k ==> !rest[m].Heading?)
      ensures !rest[k].Listed?
    {
      assert forall m :: at <= m <= k + 1 ==> lines[m] == rest[m - 1];
    }
    if h == 0 {
      InsertIntoSection(rest, at - 1, item);
      assert lines[..0] == [];
    } else {
      InsertIntoDocument(rest, h - 1, at - 1, item);
      assert lines[..h][1..] == rest[..h - 1];
      InsertBeyondHeading(rest, h - 1, at - 1, item);
      if lines[0].Heading? {
        var first := Milestone(lines[0].name, SectionItems(rest));
        assert Milestones(after) == [first] + AddItem(Milestones(rest), HeadingCount(rest[..h - 1]), item);
      }
    }
  }

  /** The first heading whose name matches. */
  function FirstMatch(lines: seq<Line>, milestone: string): (h: Option<nat>)
    ensures h.Some? ==> h.value < |lines| && lines[h.value].Heading? && HeadingMatches(lines[h.value].name, milestone)
    ensures forall i :: 0 <= i < (if h.Some? then h.value else |lines|) ==>
      !(lines[i].Heading? && HeadingMatches(lines[i].name, milestone))
  {
    if lines == [] then None
    else if lines[0].Heading? && HeadingMatches(lines[0].name, milestone) then Some(0)
    else
      assert forall i :: 1 <= i < |lines| ==> lines[i] == lines[1..][i - 1];
      var h := FirstMatch(lines[1..], milestone);
      if h.Some? then Some(h.value + 1) else None
  }

  /** It heads the first milestone whose name matches. */
  lemma {:induction false} FirstMatchIsFirstNamed(lines: seq<Line>, milestone: string)
    ensures
      var h := FirstMatch(lines, milestone);
      FirstNamed(Milestones(lines), milestone) ==
        if h.None? then None else Some(HeadingCount(lines[..h.value]))
  {
    if lines != [] {
      FirstMatchIsFirstNamed(lines[1..], milestone);
      var h := FirstMatch(lines, milestone);
      if h.Some? && h.value > 0 {
        assert lines[..h.value][1..] == lines[1..][..h.value - 1];
      }
      if lines[0].Heading? {
        assert Milestones(lines)[1..] == Milestones(lines[1..]);
      }
    }
  }

  /** The editor's matching heading is the parser's. */
  lemma MatchingHeadingIsFirst(lines: seq<string>, milestone: string)
    ensures FindMatchingHeading(lines, milestone) == FirstMatch(ClassifyAll(lines), milestone)
  {
  }

  /** Creating an item agrees with the parser: it changes nothing exactly when no milestone's
      name matches, and otherwise the parsed document is the old one with the new item, its
      label and the ticket that names, last in the first milestone whose name matches. */
  lemma CreateAgreesWithParser(text: string, milestone: string, id: string, title: string)
    requires MatchesIdPattern(id) && OnlyNewlines(text) && OnlyNewlines(title) && '\n' !in title
    ensures
      var created := CreateText(text, Some(milestone), id, title);
      var k := FirstNamed(Parsed(text), milestone);
      && (created.Some? <==> k.Some?)
      && (created.Some? ==>
           Parsed(created.value)
           == AddItem(Parsed(text), k.value, Item(Strip(RoadmapLabel(id, title)), NamedBy(id, title))))
  {
    ParserReadsEditorLines(text);
    MatchingHeadingIsFirst(Split(text), milestone);
    FirstMatchIsFirstNamed(ClassifyAll(Split(text)), milestone);
    if FindMatchingHeading(Split(text), milestone).Some? {
      JoinSplit(text);
      CreatedItemIsParsed(Split(text), milestone, id, title);
    }
  }

  lemma CreatedItemIsParsed(lines: seq<string>, milestone: string, id: string, title: string)
    requires FindMatchingHeading(lines, milestone).Some? && NoNewlines(lines) && OnlyNewlines(Join(lines))
    requires MatchesIdPattern(id) && OnlyNewlines(title) && '\n' !in title
    ensures
      var kinds, h := ClassifyAll(lines), FindMatchingHeading(lines, milestone).value;
      && HeadingCount(kinds[..h]) < |Milestones(kinds)|
      && Parsed(Join(Inserted(lines, TargetIndex(lines, milestone).value, NewItemLine(id, title))))
         == AddItem(Milestones(kinds), HeadingCount(kinds[..h]),
                    Item(Strip(RoadmapLabel(id, title)), NamedBy(id, title)))
  {
    var h, at := FindMatchingHeading(lines, milestone).value, TargetIndex(lines, milestone).value;
    CreatedTextIsParsed(lines, at, id, title);
    NewItemLineIsRead(id, title);
    InsertIntoDocument(ClassifyAll(lines), h, at, Classify(NewItemLine(id, title)).item);
  }

  lemma CreatedTextIsParsed(lines: seq<string>, at: nat, id: string, title: string)
    requires 0 < at <= |lines| && NoNewlines(lines) && OnlyNewlines(Join(lines))
    requires MatchesIdPattern(id) && OnlyNewlines(title) && '\n' !in title
    ensures Parsed(Join(Inserted(lines, at, NewItemLine(id, title))))
            == Milestones(ClassifyAll(lines)[..at] + [Classify(NewItemLine(id, title))] + ClassifyAll(lines)[at..])
  {
    LineHasNoNewline(id, title);
    CreatedTextHasOnlyNewlines(lines, at, id, title);
    InsertedLinesAreParsed(lines, at, NewItemLine(id, title));
  }

  lemma InsertedLinesAreParsed(lines: seq<string>, at: nat, line: string)
    requires 0 < at <= |lines| && NoNewlines(lines) && '\n' !in line && OnlyNewlines(Join(Inserted(lines, at, line)))
    ensures Parsed(Join(Inserted(lines, at, line)))
            == Milestones(ClassifyAll(lines)[..at] + [Classify(line)] + ClassifyAll(lines)[at..])
  {
    LinesAreParsed(Inserted(lines, at, line));
    ClassifyInserted(lines, at, line);
  }

  lemma LinesAreParsed(lines: seq<string>)
    requires lines != [] && NoNewlines(lines) && OnlyNewlines(Join(lines))
    ensures Parsed(Join(lines)) == Milestones(ClassifyAll(lines))
  {
    SplitJoin(lines);
    ParserReadsEditorLines(Join(lines));
  }

  lemma ClassifyInserted(lines: seq<string>, at: nat, line: string)
    requires 0 < at <= |lines|
    ensures ClassifyAll(Inserted(lines, at, line))
            == ClassifyAll(lines)[..at] + [Classify(line)] + ClassifyAll(lines)[at..]
  {
  }

  lemma LineHasOnlyNewlines(id: string, title: string)
    requires MatchesIdPattern(id) && OnlyNewlines(title)
    ensures OnlyNewlines(NewItemLine(id, title))
  {
    assert forall k :: 0 <= k < |id| ==> IsIdChar(id[k]);
    var mark := "**" + id + "**";
    OnlyNewlinesConcat("**", id);
    OnlyNewlinesConcat("**" + id, "**");
    OnlyNewlinesConcat(" \U{2014} ", title);
    OnlyNewlinesConcat(mark, " \U{2014} " + title);
    OnlyNewlinesConcat("- ", RoadmapLabel(id, title));
  }

  lemma CreatedTextHasOnlyNewlines(lines: seq<string>, at: nat, id: string, title: string)
    requires 0 < at <= |lines| && MatchesIdPattern(id) && OnlyNewlines(Join(lines)) && OnlyNewlines(title)
    ensures OnlyNewlines(Join(Inserted(lines, at, NewItemLine(id, title))))
  {
    LineHasOnlyNewlines(id, title);
    InsertedHasOnlyNewlines(lines, at, NewItemLine(id, title));
  }

  lemma InsertedHasOnlyNewlines(lines: seq<string>, at: nat, line: string)
    requires 0 < at <= |lines| && OnlyNewlines(Join(lines)) && OnlyNewlines(line)
    ensures OnlyNewlines(Join(Inserted(lines, at, line)))
  {
    OnlyNewlinesJoin(lines);
    OnlyNewlinesJoin(Inserted(lines, at, line));
  }

  // ---- Relabelling, as the parser sees it ---------------------------------------------

  function ReplaceItem(ms: seq<Milestone>, k: nat, j: nat, item: Item): seq<Milestone>
    requires k < |ms| && j < |ms[k].items|
  {
    ms[k := Milestone(ms[k].name, ms[k].items[j := item])]
  }

  lemma {:induction false} ReplaceInSection(body: seq<Line>, i: nat, item: Item)
    requires i < |body| && body[i].Listed? && forall k :: 0 <= k <= i ==> !body[k].Heading?
    ensures |SectionItems(body[..i])| < |SectionItems(body)|
    ensures SectionItems(body[i := Listed(item)]) == SectionItems(body)[|SectionItems(body[..i])| := item]
    ensures Milestones(body[i := Listed(item)]) == Milestones(body)
  {
    var after := body[i := Listed(item)];
    if i == 0 {
      assert after[1..] == body[1..] && body[..0] == [];
    } else {
      assert after[1..] == body[1..][i - 1 := Listed(item)];
      assert body[..i][1..] == body[1..][..i - 1];
      ReplaceInSection(body[1..], i - 1, item);
    }
  }

  /** A line put in the place of one behind a heading is not in the section before it. */
  lemma {:induction false} ReplaceBeyondHeading(body: seq<Line>, h: nat, i: nat, line: Line)
    requires h < i < |body| && body[h].Heading?
    ensures SectionItems(body[i := line]) == SectionItems(body)
  {
    if h > 0 && !body[0].Heading? {
      assert body[i := line][1..] == body[1..][i - 1 := line];
      ReplaceBeyondHeading(body[1..], h - 1, i - 1, line);
    }
  }

  /** Replacing one item line replaces one item of one milestone. */
  lemma {:induction false} ReplaceInDocument(lines: seq<Line>, h: nat, i: nat, item: Item)
    requires h < i < |lines| && lines[h].Heading? && lines[i].Listed?
    requires forall k :: h < k <= i ==> !lines[k].Heading?
    ensures HeadingCount(lines[..h]) < |Milestones(lines)|
    ensures |SectionItems(lines[h + 1..i])| < |Milestones(lines)[HeadingCount(lines[..h])].items|
    ensures Milestones(lines[i := Listed(item)])
            == ReplaceItem(Milestones(lines), HeadingCount(lines[..h]), |SectionItems(lines[h + 1..i])|, item)
  {
    var rest, after := lines[1..], lines[i := Listed(item)];
    assert after[1..] == rest[i - 1 := Listed(item)];
    if h == 0 {
      ReplaceInSection(rest, i - 1, item);
      assert lines[..0] == [] && lines[1..i] == rest[..i - 1];
    } else {
      ReplaceInDocument(rest, h - 1, i - 1, item);
      assert lines[..h][1..] == rest[..h - 1] && lines[h + 1..i] == rest[h..i - 1];
      ReplaceBeyondHeading(rest, h - 1, i - 1, Listed(item));
      if lines[0].Heading? {
        var first := Milestone(lines[0].name, SectionItems(rest));
        assert Milestones(after)
            == [first]
               + ReplaceItem(Milestones(rest), HeadingCount(rest[..h - 1]), |SectionItems(rest[h..i - 1])|, item);
      }
    }
  }

  lemma RelabelledHasOnlyNewlines(lines: seq<string>, i: nat, id: string, title: string)
    requires i < |lines| && LeadingSpaces(lines[i]) < |lines[i]|
    requires MatchesIdPattern(id) && OnlyNewlines(Join(lines)) && OnlyNewlines(title)
    ensures OnlyNewlines(Join(lines[i := RebuildItemLine(lines[i], id, title)]))
  {
    var n := PrefixLength(lines[i]);
    OnlyNewlinesJoin(lines);
    LineHasOnlyNewlines(id, title);
    OnlyNewlinesConcat("- ", RoadmapLabel(id, title));
    OnlyNewlinesConcat(lines[i][..n], lines[i][n..]);
    assert lines[i] == lines[i][..n] + lines[i][n..];
    OnlyNewlinesConcat(lines[i][..n], RoadmapLabel(id, title));
    OnlyNewlinesJoin(lines[i := RebuildItemLine(lines[i], id, title)]);
  }

  lemma RelabelledNoNewlines(lines: seq<string>, i: nat, id: string, title: string)
    requires i < |lines| && LeadingSpaces(lines[i]) < |lines[i]| && NoNewlines(lines)
    requires MatchesIdPattern(id) && '\n' !in title
    ensures NoNewlines(lines[i := RebuildItemLine(lines[i], id, title)])
  {
    LineHasNoNewline(id, title);
  }

  lemma ClassifyReplaced(lines: seq<string>, i: nat, line: string)
    requires i < |lines|
    ensures ClassifyAll(lines[i := line]) == ClassifyAll(lines)[i := Classify(line)]
  {
  }

  /** Editing an item in place agrees with the parser: one item of one milestone gets the new
      label and keeps the id, and every other item and milestone is what it was. */
  lemma EditInPlaceAgreesWithParser(text: string, id: string, milestone: Option<string>, title: string, h: nat, i: nat)
    requires OnlyNewlines(text) && OnlyNewlines(title) && '\n' !in title
    requires FindItem(Split(text), id) == Some(i) && HeadingFor(Split(text), i) == Some(h)
    requires InTargetSection(Split(text), i, milestone) || FindMatchingHeading(Split(text), milestone.value).None?
    ensures
      var kinds := ClassifyAll(Split(text));
      var k, j := HeadingCount(kinds[..h]), |SectionItems(kinds[h + 1..i])|;
      && EditText(text, id, milestone, title).Some?
      && h < i && k < |Parsed(text)| && j < |Parsed(text)[k].items|
      && Parsed(EditText(text, id, milestone, title).value)
         == ReplaceItem(Parsed(text), k, j, Item(Strip(RoadmapLabel(id, title)), Some(id)))
  {
    var lines := Split(text);
    FoundLooksLikeId(lines, id);
    ItemIsNoHeading(lines[i]);
    ItemIsBulleted(lines[i]);
    EditStays(text, i, id, milestone, title);
    JoinSplit(text);
    ParserReadsEditorLines(text);
    RelabelledIsParsed(lines, h, i, id, title);
  }

  lemma RelabelledIsParsed(lines: seq<string>, h: nat, i: nat, id: string, title: string)
    requires NoNewlines(lines) && OnlyNewlines(Join(lines)) && OnlyNewlines(title) && '\n' !in title
    requires h < i < |lines| && HeadingFor(lines, i) == Some(h) && LooksLikeTicketId(id)
    requires IsItem(lines[i]) && IsBulleted(lines[i], LeadingSpaces(lines[i]))
    ensures
      var kinds := ClassifyAll(lines);
      var k, j := HeadingCount(kinds[..h]), |SectionItems(kinds[h + 1..i])|;
      && k < |Milestones(kinds)| && j < |Milestones(kinds)[k].items|
      && Parsed(Join(lines[i := RebuildItemLine(lines[i], id, title)]))
         == ReplaceItem(Milestones(kinds), k, j, Item(Strip(RoadmapLabel(id, title)), Some(id)))
  {
    var line := RebuildItemLine(lines[i], id, title);
    RelabelledNoNewlines(lines, i, id, title);
    RelabelledHasOnlyNewlines(lines, i, id, title);
    LinesAreParsed(lines[i := line]);
    ClassifyReplaced(lines, i, line);
    RebuiltLineIsRead(lines[i], id, title);
    ReplaceInDocument(ClassifyAll(lines), h, i, Item(Strip(RoadmapLabel(id, title)), Some(id)));
  }

}
