/** Which headings name a milestone, said by their first words, and where that puts an item. */
module RoadmapHeadings {
  import opened Common
  import opened Lines
  import opened TicketIds
  import opened RoadmapParse
  import opened RoadmapEdit
  import opened RoadmapItems
  import opened RoadmapLaws

  /** What may stand between a milestone and the rest of its heading. */
  predicate IsSeparator(c: char) { c == ' ' || c == '\U{2014}' || c == ':' }

  predicate IsOneWord(s: string) { forall i :: 0 <= i < |s| ==> !IsSeparator(s[i]) }

  /** A heading's name up to the first separator. */
  function FirstWord(name: string): string {
    if name == "" || IsSeparator(name[0]) then "" else [name[0]] + FirstWord(name[1..])
  }

  lemma {:induction false} FirstWordIs(name: string)
    ensures IsOneWord(FirstWord(name)) && |FirstWord(name)| <= |name| && name[..|FirstWord(name)|] == FirstWord(name)
    ensures |FirstWord(name)| < |name| ==> IsSeparator(name[|FirstWord(name)|])
  {
    if name != "" && !IsSeparator(name[0]) {
      FirstWordIs(name[1..]);
      assert name == [name[0]] + name[1..];
    }
  }

  /** A heading names a milestone that is all of it, or that a separator follows. */
  lemma MatchesUpToSeparator(name: string, milestone: string)
    ensures HeadingMatches(name, milestone) <==>
      |milestone| <= |name| && name[..|milestone|] == milestone
      && (|milestone| == |name| || IsSeparator(name[|milestone|]))
  {
    var n := |milestone|;
    if n < |name| && name[..n] == milestone {
      assert name[..n + 1] == milestone + [name[n]];
    }
    if StartsWith(name, milestone + " ") || StartsWith(name, milestone + "\U{2014}")
       || StartsWith(name, milestone + ":") {
      assert name[..n + 1][..n] == name[..n] && name[..n + 1][n] == name[n];
    }
  }

  /** So a milestone of one word is named exactly by the headings it is the first word of. */
  lemma MatchIsFirstWord(name: string, milestone: string)
    requires IsOneWord(milestone)
    ensures HeadingMatches(name, milestone) <==> FirstWord(name) == milestone
  {
    MatchesUpToSeparator(name, milestone);
    FirstWordIs(name);
  }

  /** And no heading names two such milestones. */
  lemma OneMilestoneIsNamed(name: string, a: string, b: string)
    requires IsOneWord(a) && IsOneWord(b) && HeadingMatches(name, a) && HeadingMatches(name, b)
    ensures a == b
  {
    MatchIsFirstWord(name, a);
    MatchIsFirstWord(name, b);
  }

  /** A line of two hashes, a space, perhaps more of it, and a name is the heading of that name;
      one of three hashes is none. */
  lemma HeadingLineIsRead(gap: string, name: string)
    requires name != "" && !IsSpace(name[0]) && !IsSpace(name[|name| - 1])
    requires forall i :: 0 <= i < |gap| ==> IsSpace(gap[i])
    ensures Classify("## " + (gap + name)) == Heading(name)
    ensures !Classify("### " + name).Heading?
  {
    var two, three := "## " + (gap + name), "### " + name;
    StripNothing(two);
    StripNothing(three);
    GapIsStripped(gap, name);
    assert two[..3] == "## " && two[3..] == gap + name && three[2] == '#';
  }

  lemma GapIsStripped(gap: string, name: string)
    requires name != "" && !IsSpace(name[0]) && !IsSpace(name[|name| - 1])
    requires forall i :: 0 <= i < |gap| ==> IsSpace(gap[i])
    ensures Strip(gap + name) == name
  {
    StripLeftSkips(gap, name);
  }

  /** Every heading has its own first word. */
  ghost predicate HaveOwnWords(ms: seq<Milestone>) {
    forall i, j :: 0 <= i < j < |ms| ==> FirstWord(ms[i].name) != FirstWord(ms[j].name)
  }

  lemma FirstNamedIs(ms: seq<Milestone>, milestone: string, k: nat)
    requires HaveOwnWords(ms) && IsOneWord(milestone) && k < |ms| && FirstWord(ms[k].name) == milestone
    ensures FirstNamed(ms, milestone) == Some(k)
  {
    MatchIsFirstWord(ms[k].name, milestone);
    var first := FirstNamed(ms, milestone);
    MatchIsFirstWord(ms[first.value].name, milestone);
  }

  /** Where the headings have first words of their own, a created item goes under the one whose
      first word is its milestone, and under no other. */
  lemma CreateGoesUnderItsWord(text: string, milestone: string, id: string, title: string, k: nat)
    requires MatchesIdPattern(id) && OnlyNewlines(text) && OnlyNewlines(title) && '\n' !in title
    requires HaveOwnWords(Parsed(text)) && IsOneWord(milestone)
    requires k < |Parsed(text)| && FirstWord(Parsed(text)[k].name) == milestone
    ensures
      var created := CreateText(text, Some(milestone), id, title);
      && created.Some?
      && Parsed(created.value)
         == AddItem(Parsed(text), k,
                    Item(Strip("**" + id + "**" + (" \U{2014} " + title)), NamedBy(id, title)))
  {
    FirstNamedIs(Parsed(text), milestone, k);
    CreateAgreesWithParser(text, milestone, id, title);
  }
}
