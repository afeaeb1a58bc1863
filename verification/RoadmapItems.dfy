/** The lines the editor writes, read back: a created or relabelled line is an item that
    names its ticket, and relabelling keeps the prefix. */
module RoadmapItems {
  import opened Common
  import opened Lines
  import opened TicketIds
  import opened RoadmapParse
  import opened RoadmapEdit

  // ---- The two kinds of line the editor writes ----------------------------------------

  /** The label, right-stripped: still the bold id and then some text. */
  lemma LabelStripped(id: string, title: string)
    ensures
      var mark, rest := RoadmapLabel(id, title), StripRight(" \U{2014} " + title);
      && StripRight(mark) == "**" + id + "**" + rest
      && Strip(StripRight(mark)) == StripRight(mark)
      && Strip(mark) == StripRight(mark)
      && !HasCheckbox(StripRight(mark), 0)
  {
    var mark := RoadmapLabel(id, title);
    var dash := "\U{2014} " + title;
    assert mark == ("**" + id + "** ") + dash;
    StripRightConcat("**" + id + "** ", dash);
    assert " \U{2014} " + title == " " + dash;
    StripRightConcat(" ", dash);
    assert ("**" + id + "** ") + StripRight(dash) == "**" + id + "**" + (" " + StripRight(dash));
    StripRightIdempotent(mark);
  }

  /** The ticket the parser finds in a label: the bold id when it has a digit, otherwise
      whatever the title names. */
  function NamedBy(id: string, title: string): Option<string> {
    if LooksLikeTicketId(id) then Some(id) else ExtractTicketId(StripRight(title))
  }

  lemma {:induction false} StripRightAppend(a: string, b: string)
    ensures StripRight(a + b) == if StripRight(b) == "" then StripRight(a) else a + StripRight(b)
    decreases |b|
  {
    if b == "" {
      assert a + b == a;
    } else if IsSpace(b[|b| - 1]) {
      assert (a + b)[..|a + b| - 1] == a + b[..|b| - 1];
      StripRightAppend(a, b[..|b| - 1]);
    }
  }

  /** The dash before a title names nothing. */
  lemma TitleIsSearched(title: string)
    ensures ExtractTicketId(StripRight(" \U{2014} " + title)) == ExtractTicketId(StripRight(title))
  {
    var dash, text := " \U{2014} ", StripRight(title);
    StripRightAppend(dash, title);
    if text == "" {
      assert dash[..2] == " \U{2014}" && StripRight(dash) == dash[..2];
      SkipPrefix(dash[..2], "", 0);
      assert dash[..2] + "" == dash[..2];
    } else {
      SkipPrefix(dash, text, 0);
      ExtractBehind(dash, text, 0);
    }
  }

  lemma LabelNames(id: string, title: string)
    requires MatchesIdPattern(id)
    ensures ExtractTicketId(StripRight(RoadmapLabel(id, title))) == NamedBy(id, title)
  {
    LabelStripped(id, title);
    LabelIsSearched(id, StripRight(" \U{2014} " + title));
    if !LooksLikeTicketId(id) {
      TitleIsSearched(title);
    }
  }

  /** The bold id is what the label names when it looks like one; otherwise the rest decides. */
  lemma LabelIsSearched(id: string, rest: string)
    requires MatchesIdPattern(id)
    ensures ExtractTicketId("**" + id + "**" + rest)
            == if LooksLikeTicketId(id) then Some(id) else ExtractTicketId(rest)
  {
    var whole := "**" + id + "**" + rest;
    if LooksLikeTicketId(id) {
      BoldIdIsFound("", id, rest);
      NothingBefore(whole);
    } else {
      BoldIsFirst(id, "**" + id + "**", rest, whole);
      IdIsStripped(id);
      CandidateIsSkipped(whole, id, |"**" + id + "**"|);
      ExtractBehind("**" + id + "**", rest, 0);
    }
  }

  lemma NothingBefore(s: string)
    ensures "" + s == s
  {
  }

  lemma BoldIsFirst(id: string, bold: string, rest: string, whole: string)
    requires MatchesIdPattern(id) && whole == bold + rest && bold == "**" + id + "**"
    ensures CandidateAt(whole, 0) == Some((id, |bold|))
  {
    BoldCandidate("", id, rest);
    NothingBefore(whole);
  }

  lemma IdIsStripped(id: string)
    requires MatchesIdPattern(id)
    ensures Strip(id) == id
  {
    assert IsIdChar(id[0]) && IsIdChar(id[|id| - 1]);
    StripNothing(id);
  }

  lemma CandidateIsSkipped(s: string, text: string, end: nat)
    requires s != "" && CandidateAt(s, 0) == Some((text, end)) && !LooksLikeTicketId(Strip(text))
    ensures ExtractFrom(s, 0) == ExtractFrom(s, end)
  {
  }

  /** A created line is an item, and the parser reads its label and the ticket that names. */
  lemma NewItemLineIsRead(id: string, title: string)
    requires MatchesIdPattern(id)
    ensures IsItem(NewItemLine(id, title)) && !IsHeading(NewItemLine(id, title))
    ensures Classify(NewItemLine(id, title)) == Listed(Item(Strip(RoadmapLabel(id, title)), NamedBy(id, title)))
  {
    var mark, line := RoadmapLabel(id, title), NewItemLine(id, title);
    var text := StripRight(mark);
    LabelStripped(id, title);
    StripRightConcat("- ", mark);
    assert Strip(line) == "- " + text;
    assert ("- " + text)[1..] == " " + text;
    LeadingSpacesOf(" ", text);
    assert (" " + text)[1..] == text;
    assert ItemRest(Strip(line)) == text;
    LabelNames(id, title);
  }

  // ---- What stands before an item's label ---------------------------------------------

  predicate Spaces(s: string, from: nat, to: nat) {
    to <= |s| && forall k :: from <= k < to ==> IsSpace(s[k])
  }

  /** Indentation up to `a`, a bullet, a gap up to `gap`, and nothing or a checkbox and
      whitespace behind it. */
  predicate IsPrefix(p: string, a: nat, gap: nat) {
    && a + 1 < gap <= |p|
    && Spaces(p, 0, a) && (p[a] == '-' || p[a] == '*') && Spaces(p, a + 1, gap)
    && (gap == |p| || (HasCheckbox(p, gap) && Spaces(p, gap + 3, |p|)))
  }

  /** Indentation, a bullet and a gap open the line. */
  predicate IsBulleted(line: string, a: nat) {
    && a == LeadingSpaces(line) && a + 1 < |line| && Spaces(line, 0, a)
    && (line[a] == '-' || line[a] == '*') && IsSpace(line[a + 1])
  }

  lemma ItemIsBulleted(line: string)
    requires IsItem(line)
    ensures IsBulleted(line, LeadingSpaces(line))
  {
    ItemHasBullet(line);
    LeadingSpacesAre(line);
  }

  /** What stands before an item's label is such a prefix. */
  lemma PrefixBehindBullet(line: string, a: nat)
    requires IsBulleted(line, a)
    ensures IsPrefix(line[..PrefixLength(line)], a, VisibleFrom(line, a + 1))
  {
    var gap := VisibleFrom(line, a + 1);
    VisibleFromIs(line, a + 1, gap);
    if HasCheckbox(line, gap) {
      VisibleFromIs(line, gap + 3, PrefixLength(line));
    }
  }

  /** A prefix followed by a label is an item with that prefix. */
  lemma PrefixMakesItem(p: string, a: nat, gap: nat, mark: string)
    requires IsPrefix(p, a, gap) && mark != "" && mark[0] == '*'
    ensures LeadingSpaces(p + mark) == a && PrefixLength(p + mark) == |p|
    ensures IsItem(p + mark)
  {
    var line := p + mark;
    VisibleFromIs(line, 0, a);
    VisibleFromIs(line, a + 1, gap);
    if gap < |p| {
      assert HasCheckbox(line, gap);
      VisibleFromIs(line, gap + 3, |p|);
    }
    StripReaches(line, |p|);
    StripIsSlice(line);
  }

  lemma NewItemLineCarries(id: string, title: string)
    requires LooksLikeTicketId(id)
    ensures Carries(NewItemLine(id, title), id)
    ensures LeadingSpaces(NewItemLine(id, title)) < |NewItemLine(id, title)|
    ensures RebuildItemLine(NewItemLine(id, title), id, title) == NewItemLine(id, title)
  {
    var mark, tail := RoadmapLabel(id, title), " \U{2014} " + title;
    PrefixMakesItem("- ", 0, 2, mark);
    assert ("- " + mark)[..2] == "- ";
    SkipPrefix("- ", mark, 0);
    BoldIdIsFound("- ", id, tail);
  }

  /** Relabelling keeps the prefix, names the id, and is stable. */
  lemma RebuiltLineCarries(line: string, id: string, title: string)
    requires IsBulleted(line, LeadingSpaces(line)) && LooksLikeTicketId(id)
    ensures
      var rebuilt := RebuildItemLine(line, id, title);
      && Carries(rebuilt, id)
      && LeadingSpaces(rebuilt) < |rebuilt|
      && RebuildItemLine(rebuilt, id, title) == rebuilt
  {
    var p, a := line[..PrefixLength(line)], LeadingSpaces(line);
    var mark, tail := RoadmapLabel(id, title), " \U{2014} " + title;
    PrefixBehindBullet(line, a);
    PrefixMakesItem(p, a, VisibleFrom(line, a + 1), mark);
    assert (p + mark)[..|p|] == p;
    SkipPrefix(p, mark, 0);
    BoldIdIsFound(p, id, tail);
  }

  // ---- A relabelled line, read --------------------------------------------------------

  /** Relabelling keeps indentation, bullet, gap and checkbox, and replaces the rest. */
  lemma RebuiltLineKeepsPrefix(line: string, id: string, title: string)
    requires IsItem(line)
    ensures
      var a := LeadingSpaces(line);
      && a < |line|
      && var n, rebuilt := PrefixLength(line), RebuildItemLine(line, id, title);
         && IsPrefix(line[..n], a, VisibleFrom(line, a + 1)) && (n < |line| ==> !IsSpace(line[n]))
         && LeadingSpaces(rebuilt) < |rebuilt| && PrefixLength(rebuilt) == n
         && rebuilt[..n] == line[..n] && rebuilt[n..] == RoadmapLabel(id, title)
  {
    ItemIsBulleted(line);
    var a, n, mark := LeadingSpaces(line), PrefixLength(line), RoadmapLabel(id, title);
    PrefixBehindBullet(line, a);
    PrefixMakesItem(line[..n], a, VisibleFrom(line, a + 1), mark);
    NothingVisibleSkipped(line, a);
    assert (line[..n] + mark)[..n] == line[..n] && (line[..n] + mark)[n..] == mark;
  }

  lemma NothingVisibleSkipped(line: string, a: nat)
    requires IsBulleted(line, a)
    ensures PrefixLength(line) < |line| ==> !IsSpace(line[PrefixLength(line)])
  {
    var gap := VisibleFrom(line, a + 1);
    VisibleFromIs(line, a + 1, gap);
    if HasCheckbox(line, gap) {
      VisibleFromIs(line, gap + 3, PrefixLength(line));
    }
  }

  /** A checkbox and whitespace, or nothing. */
  predicate IsBox(box: string) { box == "" || (HasCheckbox(box, 0) && Spaces(box, 3, |box|)) }

  /** What stands behind a bullet and its gap is read as the label's text and id. */
  lemma BoxedLabelIsParsed(box: string, id: string, title: string)
    requires IsBox(box) && LooksLikeTicketId(id)
    ensures
      var text := StripRight(RoadmapLabel(id, title));
      ParseItem(box + text) == Item(Strip(RoadmapLabel(id, title)), Some(id))
  {
    var text, tail := StripRight(RoadmapLabel(id, title)), StripRight(" \U{2014} " + title);
    LabelStripped(id, title);
    assert forall k :: 0 <= k < |box| ==> NoCandidateAt(box, k);
    SkipPrefix(box, text, 0);
    BoldIdIsFound(box, id, tail);
    if box == "" {
      assert box + text == text;
    } else {
      assert HasCheckbox(box + text, 0);
      assert (box + text)[3..] == box[3..] + text;
      StripLeftSkips(box[3..], text);
    }
  }

  /** An item line put together from its parts, read back. */
  lemma PartsAreRead(indent: string, bullet: char, gap: string, box: string, id: string, title: string)
    requires Spaces(indent, 0, |indent|) && (bullet == '-' || bullet == '*')
    requires gap != "" && Spaces(gap, 0, |gap|) && IsBox(box) && LooksLikeTicketId(id)
    ensures
      var line := indent + ([bullet] + (gap + (box + RoadmapLabel(id, title))));
      Classify(line) == Listed(Item(Strip(RoadmapLabel(id, title)), Some(id)))
  {
    var mark, text := RoadmapLabel(id, title), StripRight(RoadmapLabel(id, title));
    var visible := [bullet] + (gap + (box + mark));
    LabelStripped(id, title);
    StripLeftSkips(indent, visible);
    VisibleIsStripped(bullet, gap, box, mark);
    StripLeftSkips(gap, box + text);
    BoxedLabelIsParsed(box, id, title);
    var stripped := [bullet] + (gap + (box + text));
    assert Strip(indent + visible) == stripped;
    assert stripped[1..] == gap + (box + text);
    assert HasBullet(stripped) && stripped[0] != '#';
    assert H2_PREFIX[0] == '#';
  }

  lemma VisibleIsStripped(bullet: char, gap: string, box: string, mark: string)
    requires mark != "" && !IsSpace(mark[0])
    ensures StripRight([bullet] + (gap + (box + mark))) == [bullet] + (gap + (box + StripRight(mark)))
  {
    StripRightConcat([bullet] + gap + box, mark);
    assert [bullet] + (gap + (box + mark)) == ([bullet] + gap + box) + mark;
    assert [bullet] + (gap + (box + StripRight(mark))) == ([bullet] + gap + box) + StripRight(mark);
  }

  lemma PrefixHasParts(p: string, a: nat, gap: nat, mark: string)
    requires IsPrefix(p, a, gap)
    ensures Spaces(p[..a], 0, a) && p[a + 1..gap] != "" && Spaces(p[a + 1..gap], 0, gap - a - 1) && IsBox(p[gap..])
    ensures p + mark == p[..a] + ([p[a]] + (p[a + 1..gap] + (p[gap..] + mark)))
  {
    assert p == p[..a] + [p[a]] + p[a + 1..gap] + p[gap..];
  }

  /** A relabelled line is read as an item with the label for its text and the ticket's id. */
  lemma RebuiltLineIsRead(line: string, id: string, title: string)
    requires IsBulleted(line, LeadingSpaces(line)) && LooksLikeTicketId(id)
    ensures Classify(RebuildItemLine(line, id, title)) == Listed(Item(Strip(RoadmapLabel(id, title)), Some(id)))
  {
    var a, p := LeadingSpaces(line), line[..PrefixLength(line)];
    var gap := VisibleFrom(line, a + 1);
    PrefixBehindBullet(line, a);
    PrefixHasParts(p, a, gap, RoadmapLabel(id, title));
    PartsAreRead(p[..a], p[a], p[a + 1..gap], p[gap..], id, title);
  }
}
