/** The roadmap through a file: what one write leaves is what the next one reads. */
module RoadmapOnDisk {
  import opened Common
  import opened Lines
  import opened Newlines
  import opened TicketIds
  import opened RoadmapEdit
  import opened RoadmapItems
  import opened RoadmapLaws

  /** Nothing in the title ends a line, but for a final `"\r"` that the newline behind it
      absorbs. */
  predicate IsOneLine(title: string, followed: bool) {
    forall i :: 0 <= i < |title| && (title[i] == '\n' || title[i] == '\r') ==>
      title[i] == '\r' && i == |title| - 1 && followed
  }

  /** Some line stands behind the place where a new item of the milestone goes. */
  predicate IsFollowed(text: string, milestone: string) {
    var lines := Split(text);
    TargetIndex(lines, milestone).Some? && TargetIndex(lines, milestone).value < |lines|
  }

  function Rest(lines: seq<string>, at: nat): string
    requires at <= |lines|
  {
    if at < |lines| then "\n" + Join(lines[at..]) else ""
  }

  lemma JoinedAround(lines: seq<string>, at: nat)
    requires 0 < at <= |lines|
    ensures Join(lines) == Join(lines[..at]) + Rest(lines, at)
  {
    if at < |lines| {
      JoinAdds(lines[..at], lines[at..]);
      assert lines == lines[..at] + lines[at..];
    } else {
      assert lines[..at] == lines;
    }
  }

  lemma InsertedText(lines: seq<string>, at: nat, line: string)
    requires 0 < at <= |lines|
    ensures Join(Inserted(lines, at, line)) == Join(lines[..at]) + ("\n" + (line + Rest(lines, at)))
  {
    JoinAdds(lines[..at], [line] + lines[at..]);
    assert Inserted(lines, at, line) == lines[..at] + ([line] + lines[at..]);
    if at < |lines| {
      JoinAdds([line], lines[at..]);
    } else {
      assert [line] + lines[at..] == [line];
    }
  }

  /** A title, or a line that ends in it, as the next read finds it. */
  function Seen(line: string, followed: bool): string {
    Universal(if followed && line != "" && line[|line| - 1] == '\r' then line[..|line| - 1] else line)
  }

  lemma SeenBefore(line: string, rest: string)
    requires '\r' !in rest && (rest == "" || rest[0] == '\n')
    ensures Universal(line + rest) == Seen(line, rest != "") + rest
  {
    UniversalIsSame(rest);
    if line != "" && line[|line| - 1] == '\r' && rest != "" {
      var kept := line[..|line| - 1];
      assert line + rest == kept + (['\r'] + rest) && rest == ['\n'] + rest[1..];
      UniversalSplits(kept, ['\r'] + rest);
      ReadPair(rest[1..]);
      UniversalIsSame(rest[1..]);
    } else {
      UniversalSplits(line, rest);
    }
  }

  lemma SeenBehind(head: string, line: string, rest: string)
    requires '\r' !in head && '\r' !in rest && (rest == "" || rest[0] == '\n')
    ensures Universal(head + ("\n" + (line + rest))) == head + ("\n" + (Seen(line, rest != "") + rest))
  {
    SeenBefore(line, rest);
    UniversalBehind("\n", line + rest);
    UniversalBehind(head, "\n" + (line + rest));
  }

  lemma PartsHaveNoReturn(head: string, rest: string)
    requires '\r' !in head + rest
    ensures '\r' !in head && '\r' !in rest
  {
    forall i | 0 <= i < |rest| ensures rest[i] != '\r' {
      assert (head + rest)[|head| + i] == rest[i];
    }
    forall i | 0 <= i < |head| ensures head[i] != '\r' {
      assert (head + rest)[i] == head[i];
    }
  }

  /** What the next read finds after an insertion. */
  lemma InsertedIsSeen(lines: seq<string>, at: nat, line: string)
    requires 0 < at <= |lines| && '\r' !in Join(lines)
    ensures
      var seen := Seen(line, at < |lines|);
      Universal(Join(Inserted(lines, at, line))) == Join(lines[..at]) + ("\n" + (seen + Rest(lines, at)))
  {
    JoinedAround(lines, at);
    InsertedText(lines, at, line);
    PartsHaveNoReturn(Join(lines[..at]), Rest(lines, at));
    SeenBehind(Join(lines[..at]), line, Rest(lines, at));
  }

  /** It has as many lines more as the inserted text makes. */
  lemma SeenLines(lines: seq<string>, at: nat, line: string)
    requires 0 < at <= |lines| && '\r' !in Join(lines)
    ensures |Split(Universal(Join(Inserted(lines, at, line))))|
            == |Split(Join(lines))| + |Split(Seen(line, at < |lines|))|
  {
    var head, seen, rest := Join(lines[..at]), Seen(line, at < |lines|), Rest(lines, at);
    InsertedIsSeen(lines, at, line);
    JoinedAround(lines, at);
    LinesAdd(head, rest);
    LinesAdd(head, "\n" + (seen + rest));
    LinesAdd("\n", seen + rest);
    LinesAdd(seen, rest);
    assert "\n"[1..] == "" && |Split("\n")| == 2;
  }

  lemma LineEnds(id: string, title: string)
    ensures |NewItemLine(id, title)| > |title|
    ensures NewItemLine(id, title)[|NewItemLine(id, title)| - |title|..] == title
  {
    var line := NewItemLine(id, title);
    var head := "- " + ("**" + id + "**" + " \U{2014} ");
    assert line == head + title;
  }

  lemma BreakInEnd(line: string, title: string, n: nat)
    requires |title| <= |line| && line[|line| - |title|..] == title && n <= |title|
    requires HasBreak(title[..n])
    ensures HasBreak(line[..|line| - (|title| - n)])
  {
    var k := |line| - |title|;
    var i :| 0 <= i < n && (title[i] == '\n' || title[i] == '\r');
    assert line[k + i] == title[i] && line[..|line| - (|title| - n)][k + i] == title[i];
  }

  /** A title of several lines makes several lines. */
  lemma SeveralAreSeen(id: string, title: string, followed: bool)
    requires !IsOneLine(title, followed)
    ensures |Split(Seen(NewItemLine(id, title), followed))| > 1
  {
    var line := NewItemLine(id, title);
    LineEnds(id, title);
    var i :| 0 <= i < |title| && (title[i] == '\n' || title[i] == '\r')
             && !(title[i] == '\r' && i == |title| - 1 && followed);
    var cut := followed && line[|line| - 1] == '\r';
    assert line[|line| - 1] == title[|title| - 1];
    var n := if cut then |title| - 1 else |title|;
    assert i < n && title[..n][i] == title[i];
    BreakInEnd(line, title, n);
    var kept := line[..|line| - (|title| - n)];
    assert cut ==> kept == line[..|line| - 1];
    assert !cut ==> kept == line;
    BreaksAreRead(kept);
    BreakMakesLines(Universal(kept));
  }

  function WithoutReturn(title: string): string {
    if title != "" && title[|title| - 1] == '\r' then title[..|title| - 1] else title
  }

  lemma OneLineIsClean(title: string, followed: bool)
    requires IsOneLine(title, followed)
    ensures !HasBreak(WithoutReturn(title))
    ensures !followed ==> WithoutReturn(title) == title
  {
    var kept := WithoutReturn(title);
    forall i | 0 <= i < |kept| ensures kept[i] != '\n' && kept[i] != '\r' {
      assert kept[i] == title[i];
    }
  }

  /** A title of one line is seen as that line. */
  lemma OneIsSeen(id: string, title: string, followed: bool)
    requires IsOneLine(title, followed) && MatchesIdPattern(id)
    ensures Seen(NewItemLine(id, title), followed) == NewItemLine(id, WithoutReturn(title))
  {
    var line, clean := NewItemLine(id, title), NewItemLine(id, WithoutReturn(title));
    OneLineIsClean(title, followed);
    LineEnds(id, title);
    LineHasNoReturn(id, WithoutReturn(title));
    UniversalIsSame(clean);
    if title != "" && title[|title| - 1] == '\r' {
      assert title == WithoutReturn(title) + "\r";
      assert line == clean + "\r" && line[..|line| - 1] == clean;
    } else {
      assert line == clean;
    }
  }

  lemma LineHasNoReturn(id: string, title: string)
    requires MatchesIdPattern(id) && '\r' !in title
    ensures '\r' !in RoadmapLabel(id, title) && '\r' !in NewItemLine(id, title)
  {
    assert forall k :: 0 <= k < |id| ==> IsIdChar(id[k]);
  }

  // ---- Create, then delete, through the file ------------------------------------------

  /** The text the next request reads once a transform's result has been written. */
  function ReadAfter(text: string, change: Option<string>): string { Universal(Applied(text, change)) }

  lemma DeleteKeepsLines(text: string, id: string)
    requires '\r' !in text
    ensures '\r' !in Applied(text, DeleteText(text, id))
    ensures |Split(Applied(text, DeleteText(text, id)))| >= |Split(text)| - 1
  {
    var lines := Split(text);
    var item := FindItem(lines, id);
    JoinSplit(text);
    JoinAvoids(lines, '\r');
    if item.Some? {
      var left := Without(lines, item.value);
      JoinAvoids(left, '\r');
      if left != [] {
        SplitJoin(left);
      }
    }
  }

  /** Through a file, creating and deleting an id that no item named gives back the roadmap
      exactly when no section matches, or the id has a digit and the title is one line: a
      line break in the title is read back as a line of its own, which the delete leaves. */
  lemma CreateThenDeleteOnDisk(text: string, milestone: Option<string>, id: string, title: string)
    requires MatchesIdPattern(id) && '\r' !in text && NoneCarries(Split(text), id)
    ensures
      var middle := ReadAfter(text, CreateText(text, milestone, id, title));
      ReadAfter(middle, DeleteText(middle, id)) == text
      <==> (SectionExists(Split(text), milestone) ==>
             HasDigit(id) && IsOneLine(title, IsFollowed(text, milestone.value)))
  {
    var middle := ReadAfter(text, CreateText(text, milestone, id, title));
    UniversalHasNoReturn(Applied(text, CreateText(text, milestone, id, title)));
    DeleteKeepsLines(middle, id);
    UniversalIsSame(Applied(middle, DeleteText(middle, id)));
    if SectionExists(Split(text), milestone) {
      JoinSplit(text);
      if IsOneLine(title, IsFollowed(text, milestone.value)) {
        OneLineIsCreated(text, milestone.value, id, title);
        OneLineIsClean(title, IsFollowed(text, milestone.value));
        CreateThenDeleteRestores(text, milestone, id, WithoutReturn(title));
      } else {
        SeveralAreSeen(id, title, IsFollowed(text, milestone.value));
        SeenLines(Split(text), TargetIndex(Split(text), milestone.value).value, NewItemLine(id, title));
      }
    } else {
      UniversalIsSame(text);
      CreateThenDeleteRestores(text, milestone, id, "");
    }
  }

  /** Which of two transforms changed anything, and what that tells of the text as it was. */
  ghost predicate AreWritten(raw: string, text: string, first: Option<string>, middle: string, second: Option<string>,
                             written: bool)
  {
    && (if written then first.Some? && first.value != text && middle != text
        else first.None? && middle == text && second.None?)
    && (first.Some? && first.value == raw ==> middle == text)
    && (second.Some? && second.value == raw ==> second.value == text)
  }

  lemma BothAreWritten(raw: string, milestone: Option<string>, id: string, title: string)
    requires MatchesIdPattern(id) && NoneCarries(Split(Universal(raw)), id)
    ensures
      var text := Universal(raw);
      var first := CreateText(text, milestone, id, title);
      var middle := ReadAfter(text, first);
      AreWritten(raw, text, first, middle, DeleteText(middle, id), SectionExists(Split(text), milestone))
  {
    var text := Universal(raw);
    var first := CreateText(text, milestone, id, title);
    var middle := ReadAfter(text, first);
    UniversalHasNoReturn(raw);
    UniversalHasNoReturn(Applied(text, first));
    UniversalIsSame(text);
    DeleteKeepsLines(middle, id);
    UniversalIsSame(Applied(middle, DeleteText(middle, id)));
    if SectionExists(Split(text), milestone) {
      JoinSplit(text);
      SeenLines(Split(text), TargetIndex(Split(text), milestone.value).value, NewItemLine(id, title));
    }
  }

  /** A transform that finds no `"\r"` leaves what is read as it is written. */
  lemma DeletedIsRead(text: string, id: string)
    requires '\r' !in text
    ensures ReadAfter(text, DeleteText(text, id)) == Applied(text, DeleteText(text, id))
  {
    DeleteKeepsLines(text, id);
    UniversalIsSame(Applied(text, DeleteText(text, id)));
  }

  /** A title of one line is created as that line. */
  lemma OneLineIsCreated(text: string, milestone: string, id: string, title: string)
    requires MatchesIdPattern(id) && '\r' !in text && SectionExists(Split(text), Some(milestone))
    requires IsOneLine(title, IsFollowed(text, milestone))
    ensures ReadAfter(text, CreateText(text, Some(milestone), id, title))
            == Applied(text, CreateText(text, Some(milestone), id, WithoutReturn(title)))
  {
    var lines := Split(text);
    var at := TargetIndex(lines, milestone).value;
    JoinSplit(text);
    OneIsSeen(id, title, at < |lines|);
    InsertedIsSeen(lines, at, NewItemLine(id, title));
    InsertedText(lines, at, NewItemLine(id, WithoutReturn(title)));
  }

  // ---- Which writes bring a `"\r"` in --------------------------------------------------

  lemma ConcatHolds(a: string, b: string, c: char)
    ensures c in a + b <==> c in a || c in b
  {
  }

  lemma LabelHolds(id: string, title: string)
    requires MatchesIdPattern(id)
    ensures '\r' in RoadmapLabel(id, title) <==> '\r' in title
    ensures '\r' in NewItemLine(id, title) <==> '\r' in title
  {
    assert forall k :: 0 <= k < |id| ==> IsIdChar(id[k]);
    ConcatHolds("**" + id + "**" + " \U{2014} ", title, '\r');
    assert RoadmapLabel(id, title) == "**" + id + "**" + " \U{2014} " + title;
    ConcatHolds("- ", RoadmapLabel(id, title), '\r');
  }

  lemma InsertedHolds(lines: seq<string>, at: nat, line: string)
    requires at <= |lines| && '\r' !in Join(lines)
    ensures '\r' in Join(Inserted(lines, at, line)) <==> '\r' in line
  {
    var all := Inserted(lines, at, line);
    JoinAvoids(lines, '\r');
    JoinAvoids(all, '\r');
    assert all[at] == line;
    forall k | 0 <= k < |all| && k != at ensures '\r' !in all[k] {
      assert all[k] == lines[if k < at then k else k - 1];
    }
  }

  lemma CreateHolds(text: string, milestone: Option<string>, id: string, title: string)
    requires MatchesIdPattern(id) && '\r' !in text
    ensures
      var created := CreateText(text, milestone, id, title);
      && (created.Some? <==> SectionExists(Split(text), milestone))
      && (created.Some? ==> ('\r' in created.value <==> '\r' in title))
  {
    if SectionExists(Split(text), milestone) {
      JoinSplit(text);
      LabelHolds(id, title);
      InsertedHolds(Split(text), TargetIndex(Split(text), milestone.value).value, NewItemLine(id, title));
    }
  }

  lemma RelabelHolds(lines: seq<string>, i: nat, id: string, title: string)
    requires i < |lines| && LeadingSpaces(lines[i]) < |lines[i]| && MatchesIdPattern(id) && '\r' !in Join(lines)
    ensures '\r' in Join(lines[i := RebuildItemLine(lines[i], id, title)]) <==> '\r' in title
  {
    var line := RebuildItemLine(lines[i], id, title);
    JoinAvoids(lines, '\r');
    LabelHolds(id, title);
    ConcatHolds(lines[i][..PrefixLength(lines[i])], RoadmapLabel(id, title), '\r');
    JoinAvoids(lines[i := line], '\r');
    assert lines[i := line][i] == line;
  }

  lemma EditHolds(text: string, id: string, milestone: Option<string>, title: string)
    requires '\r' !in text
    ensures
      var edited := EditText(text, id, milestone, title);
      && (edited.Some? <==> FindItem(Split(text), id).Some?)
      && (edited.Some? ==> ('\r' in edited.value <==> '\r' in title))
  {
    var lines := Split(text);
    var item := FindItem(lines, id);
    if item.Some? {
      FoundLooksLikeId(lines, id);
      ItemHasBullet(lines[item.value]);
      JoinSplit(text);
      RelabelHolds(lines, item.value, id, title);
      JoinAvoids(lines, '\r');
      JoinAvoids(Without(lines, item.value), '\r');
      CreateHolds(Join(Without(lines, item.value)), milestone, id, title);
    }
  }
}
