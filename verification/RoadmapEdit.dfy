/** The roadmap editor: create, edit and delete rewrite lines of the document the parser
    reads (file_adapter/write_render.py, the `_roadmap_*` helpers). */
module RoadmapEdit {
  import opened Common
  import opened Lines
  import opened TicketIds
  import opened RoadmapParse

  predicate IsItem(line: string) { HasBullet(Strip(line)) }

  /** A list item that names the ticket. */
  predicate Carries(line: string, id: string) {
    IsItem(line) && ExtractTicketId(line) == Some(id)
  }

  function RoadmapLabel(id: string, title: string): string {
    "**" + id + "**" + (" \U{2014} " + title)
  }

  function NewItemLine(id: string, title: string): string { "- " + RoadmapLabel(id, title) }

  /** `_heading_matches`, on the stripped heading text. */
  predicate HeadingMatches(name: string, milestone: string) {
    || name == milestone
    || StartsWith(name, milestone + " ")
    || StartsWith(name, milestone + "\U{2014}")
    || StartsWith(name, milestone + ":")
  }

  /** A heading line whose section is `milestone`'s. */
  predicate OpensSection(line: string, milestone: string) {
    IsHeading(line) && HeadingMatches(HeadingName(line), milestone)
  }

  function FindMatchingHeading(lines: seq<string>, milestone: string, from: nat := 0): (r: Option<nat>)
    requires from <= |lines|
    ensures r.Some? ==> from <= r.value < |lines| && OpensSection(lines[r.value], milestone)
    ensures forall i :: from <= i < (if r.Some? then r.value else |lines|) ==> !OpensSection(lines[i], milestone)
    decreases |lines| - from
  {
    if from == |lines| then None
    else if OpensSection(lines[from], milestone) then Some(from)
    else FindMatchingHeading(lines, milestone, from + 1)
  }

  /** `_heading_index_for_line`: the heading whose section holds line `i`. */
  function HeadingFor(lines: seq<string>, i: nat): (r: Option<nat>)
    requires i < |lines|
    ensures r.Some? ==> r.value <= i && IsHeading(lines[r.value])
                        && forall k :: r.value < k <= i ==> !IsHeading(lines[k])
    ensures r.None? ==> forall k :: 0 <= k <= i ==> !IsHeading(lines[k])
  {
    if IsHeading(lines[i]) then Some(i) else if i == 0 then None else HeadingFor(lines, i - 1)
  }

  /** The end of the section body that starts at `start`. */
  function SectionEnd(lines: seq<string>, start: nat): (end: nat)
    requires start <= |lines|
    ensures start <= end <= |lines|
    ensures forall k :: start <= k < end ==> !IsHeading(lines[k])
    ensures end < |lines| ==> IsHeading(lines[end])
    decreases |lines| - start
  {
    if start == |lines| || IsHeading(lines[start]) then start else SectionEnd(lines, start + 1)
  }

  /** Where a new item goes: after the last item, or before the trailing blank lines. */
  ghost predicate IsInsertIndex(lines: seq<string>, start: nat, end: nat, at: nat)
    requires end <= |lines|
  {
    && start <= at <= end
    && (forall k :: at <= k < end ==> !IsItem(lines[k]))
    && if exists k :: start <= k < end && IsItem(lines[k]) then at > start && IsItem(lines[at - 1])
       else (forall k :: at <= k < end ==> Strip(lines[k]) == "") && (at > start ==> Strip(lines[at - 1]) != "")
  }

  /** `_section_insert_index`. */
  method SectionInsertIndex(lines: seq<string>, start: nat, end: nat) returns (at: nat)
    requires start <= end <= |lines|
    ensures at == InsertIndex(lines, start, end) && IsInsertIndex(lines, start, end, at)
  {
    var insertAt: Option<nat> := None;
    for i := start to end
      invariant match insertAt
                case None => forall k :: start <= k < i ==> !IsItem(lines[k])
                case Some(a) =>
                  start < a <= i && IsItem(lines[a - 1]) && forall k :: a <= k < i ==> !IsItem(lines[k])
    {
      if IsItem(lines[i]) {
        insertAt := Some(i + 1);
      }
    }
    if insertAt.Some? {
      return insertAt.value;
    }
    at := end;
    while at > start && Strip(lines[at - 1]) == ""
      invariant start <= at <= end
      invariant forall k :: at <= k < end ==> Strip(lines[k]) == ""
    {
      at := at - 1;
    }
  }

  function InsertIndex(lines: seq<string>, start: nat, end: nat): (at: nat)
    requires start <= end <= |lines|
    ensures start <= at <= end
  {
    var afterItem := AfterLastItem(lines, start, end);
    if afterItem.Some? then afterItem.value else BeforeBlanks(lines, start, end)
  }

  function AfterLastItem(lines: seq<string>, start: nat, end: nat): (at: Option<nat>)
    requires start <= end <= |lines|
    ensures at.Some? ==> start < at.value <= end && IsItem(lines[at.value - 1])
    ensures forall k :: (if at.Some? then at.value else start) <= k < end ==> !IsItem(lines[k])
  {
    if start == end then None
    else if IsItem(lines[end - 1]) then Some(end)
    else AfterLastItem(lines, start, end - 1)
  }

  function BeforeBlanks(lines: seq<string>, start: nat, end: nat): (at: nat)
    requires start <= end <= |lines|
    ensures start <= at <= end
    ensures forall k :: at <= k < end ==> Strip(lines[k]) == ""
    ensures at > start ==> Strip(lines[at - 1]) != ""
  {
    if start < end && Strip(lines[end - 1]) == "" then BeforeBlanks(lines, start, end - 1) else end
  }

  function Inserted(lines: seq<string>, at: nat, line: string): seq<string>
    requires at <= |lines|
  {
    lines[..at] + [line] + lines[at..]
  }

  /** Where a new item of `milestone` would go. */
  function TargetIndex(lines: seq<string>, milestone: string): (at: Option<nat>)
    ensures at.Some? <==> FindMatchingHeading(lines, milestone).Some?
    ensures at.Some? ==> FindMatchingHeading(lines, milestone).value < at.value <= |lines|
  {
    match FindMatchingHeading(lines, milestone)
    case None => None
    case Some(h) => Some(InsertIndex(lines, h + 1, SectionEnd(lines, h + 1)))
  }

  function CreateLines(lines: seq<string>, milestone: Option<string>, id: string, title: string)
    : Option<seq<string>>
  {
    if milestone.None? then None
    else match TargetIndex(lines, milestone.value)
      case None => None
      case Some(at) => Some(Inserted(lines, at, NewItemLine(id, title)))
  }

  function CreateText(current: string, milestone: Option<string>, id: string, title: string): Option<string> {
    match CreateLines(Split(current), milestone, id, title)
    case None => None
    case Some(lines) => Some(Join(lines))
  }

  /** `_find_matching_heading`. */
  method MatchingHeading(lines: seq<string>, milestone: string) returns (h: Option<nat>)
    ensures h == FindMatchingHeading(lines, milestone)
  {
    for i := 0 to |lines|
      invariant forall k :: 0 <= k < i ==> !OpensSection(lines[k], milestone)
    {
      if IsHeading(lines[i]) && HeadingMatches(HeadingName(lines[i]), milestone) {
        return Some(i);
      }
    }
    return None;
  }

  /** `_section_body_bounds`. */
  method SectionBodyBounds(lines: seq<string>, heading: nat) returns (start: nat, end: nat)
    requires heading < |lines|
    ensures start == heading + 1 && end == SectionEnd(lines, start)
  {
    start := heading + 1;
    for i := start to |lines|
      invariant forall k :: start <= k < i ==> !IsHeading(lines[k])
    {
      if IsHeading(lines[i]) {
        return start, i;
      }
    }
    end := |lines|;
  }

  /** `_roadmap_create_text`. */
  method RoadmapCreateText(current: string, milestone: Option<string>, id: string, title: string)
    returns (r: Option<string>)
    ensures r == CreateText(current, milestone, id, title)
  {
    if milestone.None? {
      return None;
    }
    var lines := Split(current);
    var h := MatchingHeading(lines, milestone.value);
    if h.None? {
      return None;
    }
    var start, end := SectionBodyBounds(lines, h.value);
    var at := SectionInsertIndex(lines, start, end);
    lines := lines[..at] + [NewItemLine(id, title)] + lines[at..];
    return Some(Join(lines));
  }

  /** The first list item that carries the id. */
  function FindItem(lines: seq<string>, id: string, from: nat := 0): (r: Option<nat>)
    requires from <= |lines|
    ensures r.Some? ==> from <= r.value < |lines| && Carries(lines[r.value], id)
    ensures forall i :: from <= i < (if r.Some? then r.value else |lines|) ==> !Carries(lines[i], id)
    decreases |lines| - from
  {
    if from == |lines| then None
    else if Carries(lines[from], id) then Some(from)
    else FindItem(lines, id, from + 1)
  }

  /** `_ITEM_PREFIX_RE`: indentation, bullet, gap, and a checkbox with the gap after it. */
  function PrefixLength(line: string): (n: nat)
    requires LeadingSpaces(line) < |line|
    ensures n <= |line|
  {
    var gap := VisibleFrom(line, LeadingSpaces(line) + 1);
    if HasCheckbox(line, gap) then VisibleFrom(line, gap + 3) else gap
  }

  /** `_rebuild_item_line`. */
  function RebuildItemLine(line: string, id: string, title: string): string
    requires LeadingSpaces(line) < |line|
  {
    line[..PrefixLength(line)] + RoadmapLabel(id, title)
  }

  /** Whether the item is already where the edit wants it. */
  predicate InTargetSection(lines: seq<string>, i: nat, milestone: Option<string>)
    requires i < |lines|
  {
    milestone.None? || (HeadingFor(lines, i).Some? && OpensSection(lines[HeadingFor(lines, i).value], milestone.value))
  }

  lemma ItemHasBullet(line: string)
    requires IsItem(line)
    ensures
      var a := LeadingSpaces(line);
      a + 1 < |line| && (line[a] == '-' || line[a] == '*') && IsSpace(line[a + 1])
  {
    StripIsSlice(line);
  }

  lemma ItemIsNoHeading(line: string)
    requires IsItem(line)
    ensures !IsHeading(line)
  {
    assert H2_PREFIX[0] == '#';
  }

  function EditText(current: string, id: string, milestone: Option<string>, title: string): Option<string> {
    var lines := Split(current);
    match FindItem(lines, id)
    case None => None
    case Some(i) =>
      ItemHasBullet(lines[i]);
      var moved := if InTargetSection(lines, i, milestone) then None
                   else CreateText(Join(Without(lines, i)), milestone, id, title);
      if moved.Some? then moved
      else Some(Join(lines[i := RebuildItemLine(lines[i], id, title)]))
  }

  /** `_heading_index_for_line`: the walk backward. */
  method HeadingIndexForLine(lines: seq<string>, i: nat) returns (h: Option<nat>)
    requires i < |lines|
    ensures h == HeadingFor(lines, i)
  {
    for k := i + 1 downto 0
      invariant forall m :: k <= m <= i ==> !IsHeading(lines[m])
    {
      if IsHeading(lines[k]) {
        return Some(k);
      }
    }
    return None;
  }

  /** The search both an edit and a delete begin with. */
  method ItemIndex(lines: seq<string>, id: string) returns (item: Option<nat>)
    ensures item == FindItem(lines, id)
  {
    for i := 0 to |lines|
      invariant forall k :: 0 <= k < i ==> !Carries(lines[k], id)
    {
      if IsItem(lines[i]) && ExtractTicketId(lines[i]) == Some(id) {
        return Some(i);
      }
    }
    return None;
  }

  /** `_roadmap_edit_text`. */
  method RoadmapEditText(current: string, id: string, milestone: Option<string>, title: string)
    returns (r: Option<string>)
    ensures r == EditText(current, id, milestone, title)
  {
    var lines := Split(current);
    var item := ItemIndex(lines, id);
    if item.None? {
      return None;
    }
    var i := item.value;
    var h := HeadingIndexForLine(lines, i);
    var inTargetSection := milestone.None? || (h.Some? && HeadingMatches(HeadingName(lines[h.value]), milestone.value));
    if !inTargetSection {
      var withoutItem := lines[..i] + lines[i + 1..];
      var moved := RoadmapCreateText(Join(withoutItem), milestone, id, title);
      if moved.Some? {
        return moved;
      }
    }
    ItemHasBullet(lines[i]);
    lines := lines[i := RebuildItemLine(lines[i], id, title)];
    return Some(Join(lines));
  }

  function DeleteText(current: string, id: string): Option<string> {
    var lines := Split(current);
    match FindItem(lines, id)
    case None => None
    case Some(i) => Some(Join(Without(lines, i)))
  }

  /** `_roadmap_delete_text`. */
  method RoadmapDeleteText(current: string, id: string) returns (r: Option<string>)
    ensures r == DeleteText(current, id)
  {
    var lines := Split(current);
    for i := 0 to |lines|
      invariant forall k :: 0 <= k < i ==> !Carries(lines[k], id)
    {
      if Carries(lines[i], id) {
        lines := lines[..i] + lines[i + 1..];
        return Some(Join(lines));
      }
    }
    return None;
  }
}
