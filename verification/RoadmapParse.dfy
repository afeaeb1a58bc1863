/** The roadmap parser: which lines open a milestone, which are items, and which ticket an
    item names (file_adapter/roadmap_parse.py). */
module RoadmapParse {
  import opened Common
  import opened Lines
  import opened TicketIds

  const H2_PREFIX := "## "

  predicate IsHeading(line: string) { StartsWith(Strip(line), H2_PREFIX) }

  function HeadingName(line: string): string
    requires IsHeading(line)
  {
    Strip(Strip(line)[|H2_PREFIX|..])
  }

  /** `^[-*]\s+(?P<rest>.*)$` matches a stripped line. */
  predicate HasBullet(stripped: string) {
    |stripped| > 1 && (stripped[0] == '-' || stripped[0] == '*') && IsSpace(stripped[1])
  }

  /** The `rest` of that match. */
  function ItemRest(stripped: string): string
    requires HasBullet(stripped)
  {
    StripLeft(stripped[1..])
  }

  /** A `[ ]`, `[x]` or `[X]` at position `i`. */
  predicate HasCheckbox(s: string, i: nat) {
    i + 3 <= |s| && s[i] == '[' && (s[i + 1] == ' ' || s[i + 1] == 'x' || s[i + 1] == 'X') && s[i + 2] == ']'
  }

  // ---- Which ticket a line names ------------------------------------------------------

  predicate LooksLikeTicketId(token: string) {
    MatchesIdPattern(token) && exists i :: 0 <= i < |token| && IsDigit(token[i])
  }

  /** The index of the first `c` at or after `i`, or the length. */
  function IndexFrom(s: string, c: char, i: nat): (j: nat)
    requires i <= |s|
    ensures i <= j <= |s|
    decreases |s| - i
  {
    if i == |s| || s[i] == c then i else IndexFrom(s, c, i + 1)
  }

  /** One candidate of `_ID_CANDIDATE_RE` at position `i`: its text and where it ends. */
  function CandidateAt(s: string, i: nat): (c: Option<(string, nat)>)
    requires i < |s|
    ensures c.Some? ==> i < c.value.1 <= |s|
  {
    if i + 1 < |s| && s[i] == '*' && s[i + 1] == '*' then
      var j := IndexFrom(s, '*', i + 2);
      if i + 2 < j && j + 1 < |s| && s[j + 1] == '*' then Some((s[i + 2..j], j + 2)) else None
    else if s[i] == '(' then
      var j := IndexFrom(s, ')', i + 1);
      if i + 1 < j < |s| then Some((s[i + 1..j], j + 1)) else None
    else None
  }

  /** `_ID_CANDIDATE_RE.finditer` from position `i`: the first candidate, bold or
      parenthesised, that looks like an id. */
  function ExtractFrom(s: string, i: nat): Option<string>
    requires i <= |s|
    decreases |s| - i
  {
    if i == |s| then None
    else match CandidateAt(s, i)
      case None => ExtractFrom(s, i + 1)
      case Some((text, end)) =>
        if LooksLikeTicketId(Strip(text)) then Some(Strip(text)) else ExtractFrom(s, end)
  }

  function ExtractTicketId(line: string): Option<string> { ExtractFrom(line, 0) }

  // ---- Milestones ---------------------------------------------------------------------

  datatype Item = Item(text: string, ticketId: Option<string>)

  datatype Milestone = Milestone(name: string, items: seq<Item>)

  function ParseItem(rest: string): Item {
    var text := if HasCheckbox(rest, 0) then StripLeft(rest[3..]) else rest;
    Item(Strip(text), ExtractTicketId(rest))
  }

  /** What the parser takes a line for. */
  datatype Line = Heading(name: string) | Listed(item: Item) | Prose

  function Classify(line: string): Line {
    if IsHeading(line) then Heading(HeadingName(line))
    else if HasBullet(Strip(line)) then Listed(ParseItem(ItemRest(Strip(line))))
    else Prose
  }

  function ClassifyAll(lines: seq<string>): (r: seq<Line>)
    ensures |r| == |lines| && forall i :: 0 <= i < |r| ==> r[i] == Classify(lines[i])
  {
    seq(|lines|, i requires 0 <= i < |lines| => Classify(lines[i]))
  }

  /** The items of a section: the list items up to the next heading. */
  function SectionItems(lines: seq<Line>): seq<Item> {
    if lines == [] || lines[0].Heading? then []
    else if lines[0].Listed? then [lines[0].item] + SectionItems(lines[1..])
    else SectionItems(lines[1..])
  }

  /** The milestones of a body: one per heading, with the items of its section. */
  function Milestones(lines: seq<Line>): seq<Milestone> {
    if lines == [] then []
    else if lines[0].Heading? then
      [Milestone(lines[0].name, SectionItems(lines[1..]))] + Milestones(lines[1..])
    else Milestones(lines[1..])
  }

  /** What parsing a body gives. */
  function Parsed(body: string): seq<Milestone> { Milestones(ClassifyAll(SplitLines(body))) }

  /** `parse_milestones`: one walk that carries the open milestone. */
  method ParseMilestones(body: string) returns (milestones: seq<Milestone>)
    ensures milestones == Parsed(body)
  {
    var lines := SplitLines(body);
    ghost var kinds := ClassifyAll(lines);
    milestones := [];
    var currentName: Option<string> := None;
    var currentItems: seq<Item> := [];
    for i := 0 to |lines|
      invariant Finished(milestones, currentName, currentItems, kinds[i..]) == Milestones(kinds)
    {
      var kind := Classify(lines[i]);
      assert kinds[i..] == [kind] + kinds[i + 1..];
      FinishStep(milestones, currentName, currentItems, kind, kinds[i + 1..]);
      if kind.Heading? {
        if currentName.Some? {
          milestones := milestones + [Milestone(currentName.value, currentItems)];
        }
        currentName := Some(kind.name);
        currentItems := [];
        continue;
      }
      if currentName.None? {
        continue;
      }
      if kind.Listed? {
        currentItems := currentItems + [kind.item];
      }
    }
    assert kinds[|lines|..] == [] && currentItems + [] == currentItems;
    if currentName.Some? {
      milestones := milestones + [Milestone(currentName.value, currentItems)];
    }
  }

  /** The whole answer, from the milestones closed, the one open, and the lines left. */
  function Finished(closed: seq<Milestone>, name: Option<string>, items: seq<Item>, rest: seq<Line>)
    : seq<Milestone>
  {
    closed + (if name.Some? then [Milestone(name.value, items + SectionItems(rest))] else []) + Milestones(rest)
  }

  lemma FinishStep(closed: seq<Milestone>, name: Option<string>, items: seq<Item>, line: Line, rest: seq<Line>)
    ensures Finished(closed, name, items, [line] + rest) ==
      if line.Heading? then
        Finished(if name.Some? then closed + [Milestone(name.value, items)] else closed, Some(line.name), [], rest)
      else Finished(closed, name, if line.Listed? && name.Some? then items + [line.item] else items, rest)
  {
    assert ([line] + rest)[1..] == rest;
    assert items + [] == items && [] + SectionItems(rest) == SectionItems(rest);
    if line.Listed? {
      assert items + ([line.item] + SectionItems(rest)) == (items + [line.item]) + SectionItems(rest);
    }
  }

  // ---- Extraction ---------------------------------------------------------------------

  /** No candidate begins here, whatever follows the text. */
  predicate NoCandidateAt(s: string, k: nat)
    requires k < |s|
  {
    s[k] != '(' && (s[k] == '*' ==> k + 1 < |s| && s[k + 1] != '*')
  }

  /** Text in which no candidate can begin does not change which id a line names. */
  lemma {:induction false} SkipPrefix(prefix: string, rest: string, i: nat)
    requires i <= |prefix|
    requires forall k :: i <= k < |prefix| ==> NoCandidateAt(prefix, k)
    ensures ExtractFrom(prefix + rest, i) == ExtractFrom(prefix + rest, |prefix|)
    decreases |prefix| - i
  {
    if i < |prefix| {
      assert NoCandidateAt(prefix, i);
      assert CandidateAt(prefix + rest, i).None?;
      SkipPrefix(prefix, rest, i + 1);
    }
  }

  lemma {:induction false} IndexFromIs(s: string, c: char, i: nat, j: nat)
    requires i <= j < |s| && s[j] == c && forall k :: i <= k < j ==> s[k] != c
    ensures IndexFrom(s, c, i) == j
    decreases j - i
  {
    if i < j {
      IndexFromIs(s, c, i + 1, j);
    }
  }

  /** A bold id is the candidate where it stands. */
  lemma BoldIdIsFound(prefix: string, id: string, rest: string)
    requires LooksLikeTicketId(id)
    ensures ExtractFrom(prefix + ("**" + id + "**" + rest), |prefix|) == Some(id)
  {
    var s, i := prefix + ("**" + id + "**" + rest), |prefix|;
    BoldCandidate(prefix, id, rest);
    assert IsIdChar(id[0]) && IsIdChar(id[|id| - 1]);
    StripNothing(id);
  }

  lemma BoldCandidate(prefix: string, id: string, rest: string)
    requires MatchesIdPattern(id)
    ensures CandidateAt(prefix + ("**" + id + "**" + rest), |prefix|) == Some((id, |prefix| + |id| + 4))
  {
    var s, i := prefix + ("**" + id + "**" + rest), |prefix|;
    assert s[i] == '*' && s[i + 1] == '*';
    assert s[i + 2..i + 2 + |id|] == id;
    forall k | i + 2 <= k < i + 2 + |id| ensures s[k] != '*' {
      assert s[k] == id[k - i - 2] && IsIdChar(id[k - i - 2]);
    }
    assert s[i + 2 + |id|] == '*' && s[i + 3 + |id|] == '*';
    IndexFromIs(s, '*', i + 2, i + 2 + |id|);
  }

  /** A parenthesised id is the candidate where it stands. */
  lemma ParenthesisedIdIsFound(prefix: string, id: string, rest: string)
    requires LooksLikeTicketId(id)
    ensures ExtractFrom(prefix + ("(" + id + ")" + rest), |prefix|) == Some(id)
  {
    ParenthesisedCandidate(prefix, id, rest);
    assert IsIdChar(id[0]) && IsIdChar(id[|id| - 1]);
    StripNothing(id);
  }

  lemma ParenthesisedCandidate(prefix: string, id: string, rest: string)
    requires MatchesIdPattern(id)
    ensures CandidateAt(prefix + ("(" + id + ")" + rest), |prefix|) == Some((id, |prefix| + |id| + 2))
  {
    var s, i := prefix + ("(" + id + ")" + rest), |prefix|;
    assert s[i] == '(';
    assert s[i + 1..i + 1 + |id|] == id;
    forall k | i + 1 <= k < i + 1 + |id| ensures s[k] != ')' {
      assert s[k] == id[k - i - 1] && IsIdChar(id[k - i - 1]);
    }
    assert s[i + 1 + |id|] == ')';
    IndexFromIs(s, ')', i + 1, i + 1 + |id|);
  }

  lemma {:induction false} IndexBehind(a: string, b: string, c: char, i: nat)
    requires i <= |b|
    ensures IndexFrom(a + b, c, |a| + i) == |a| + IndexFrom(b, c, i)
    decreases |b| - i
  {
    if i < |b| {
      assert (a + b)[|a| + i] == b[i];
      IndexBehind(a, b, c, i + 1);
    }
  }

  lemma CharBehind(a: string, b: string, k: nat)
    requires k < |b|
    ensures (a + b)[|a| + k] == b[k]
  {
  }

  lemma SliceBehind(a: string, b: string, i: nat, j: nat)
    requires i <= j <= |b|
    ensures (a + b)[|a| + i..|a| + j] == b[i..j]
  {
  }

  ghost predicate SameCandidate(here: Option<(string, nat)>, there: Option<(string, nat)>, shift: nat) {
    && (here.Some? <==> there.Some?)
    && (here.Some? ==> there.value == (here.value.0, shift + here.value.1))
  }

  lemma CandidateBehind(a: string, b: string, i: nat)
    requires i < |b|
    ensures SameCandidate(CandidateAt(b, i), CandidateAt(a + b, |a| + i), |a|)
  {
    CharBehind(a, b, i);
    if i + 1 < |b| {
      CharBehind(a, b, i + 1);
    }
    if i + 1 < |b| && b[i] == '*' && b[i + 1] == '*' {
      BoldBehind(a, b, i, IndexFrom(b, '*', i + 2));
    } else if b[i] == '(' {
      ParenthesisBehind(a, b, i, IndexFrom(b, ')', i + 1));
    }
  }

  lemma BoldBehind(a: string, b: string, i: nat, j: nat)
    requires i + 1 < |b| && b[i] == '*' && b[i + 1] == '*' && j == IndexFrom(b, '*', i + 2)
    ensures SameCandidate(CandidateAt(b, i), CandidateAt(a + b, |a| + i), |a|)
  {
    CharBehind(a, b, i);
    CharBehind(a, b, i + 1);
    IndexBehind(a, b, '*', i + 2);
    SliceBehind(a, b, i + 2, j);
    if j + 1 < |b| {
      CharBehind(a, b, j + 1);
    }
  }

  lemma ParenthesisBehind(a: string, b: string, i: nat, j: nat)
    requires i < |b| && b[i] == '(' && j == IndexFrom(b, ')', i + 1)
    ensures SameCandidate(CandidateAt(b, i), CandidateAt(a + b, |a| + i), |a|)
  {
    CharBehind(a, b, i);
    IndexBehind(a, b, ')', i + 1);
    SliceBehind(a, b, i + 1, j);
  }

  /** What stands before the search does not matter to it. */
  lemma {:induction false} ExtractBehind(a: string, b: string, i: nat)
    requires i <= |b|
    ensures ExtractFrom(a + b, |a| + i) == ExtractFrom(b, i)
    decreases |b| - i
  {
    if i < |b| {
      CandidateBehind(a, b, i);
      var here := CandidateAt(b, i);
      ExtractBehind(a, b, if here.Some? then here.value.1 else i + 1);
    }
  }

  /** Only id-shaped tokens are ever extracted. */
  lemma {:induction false} ExtractedLooksLikeId(s: string, i: nat)
    requires i <= |s|
    ensures ExtractFrom(s, i).Some? ==> LooksLikeTicketId(ExtractFrom(s, i).value)
    decreases |s| - i
  {
    if i < |s| {
      match CandidateAt(s, i)
      case None => ExtractedLooksLikeId(s, i + 1);
      case Some((_, end)) => ExtractedLooksLikeId(s, end);
    }
  }

  // ---- The parser's lines and the editor's lines --------------------------------------

  /** A trailing blank line parses to nothing. */
  lemma {:induction false} TrailingProseIsIgnored(lines: seq<Line>)
    ensures SectionItems(lines + [Prose]) == SectionItems(lines)
    ensures Milestones(lines + [Prose]) == Milestones(lines)
  {
    if lines != [] {
      TrailingProseIsIgnored(lines[1..]);
      assert (lines + [Prose])[1..] == lines[1..] + [Prose];
    }
  }

  /** On text whose only line boundary is the newline, the parser reads the editor's lines. */
  lemma ParserReadsEditorLines(text: string)
    requires OnlyNewlines(text)
    ensures Parsed(text) == Milestones(ClassifyAll(Split(text)))
  {
    SplitLinesIsSplit(text);
    var lines := Split(text);
    if lines[|lines| - 1] == "" {
      BlankEndIsIgnored(lines[..|lines| - 1]);
      assert lines == lines[..|lines| - 1] + [""];
    }
  }

  lemma BlankEndIsIgnored(lines: seq<string>)
    ensures Milestones(ClassifyAll(lines + [""])) == Milestones(ClassifyAll(lines))
  {
    TrailingProseIsIgnored(ClassifyAll(lines));
    assert Classify("") == Prose;
    assert ClassifyAll(lines + [""]) == ClassifyAll(lines) + [Prose];
  }
}
