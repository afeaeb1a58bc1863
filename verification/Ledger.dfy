/** The spend ledger, line by line: every line is an entry, a detailed skip, or counted
    (file_adapter/ledger.py, `read_ledger`). */
module Ledger {
  import opened Common
  import Lines

  const MAX_SKIPPED_LINES: nat := 1000

  /** What one line's text parses to. */
  datatype Parse<E> = NotADocument | NotAnEntry | Parsed(entry: E)

  datatype Reason = NotJson | InvalidEntry | PartialLine | Unreadable | FileTooLarge

  datatype Skip = Skip(lineNo: nat, reason: Reason)

  datatype LedgerRead<E> = LedgerRead(entries: seq<E>, skipped: seq<Skip>, omitted: nat)

  /** What opening the file gave; a text is decoded with replacement, so it always is one. */
  datatype FileRead = Content(text: string) | NotFound | CannotRead | TooLarge

  // ---- Lines --------------------------------------------------------------------------

  function WithoutCr(line: string): string
    decreases |line|
  {
    if line != "" && line[|line| - 1] == '\r' then WithoutCr(line[..|line| - 1]) else line
  }

  predicate IsTerminated(text: string) {
    var lines := Lines.Split(text);
    lines[|lines| - 1] == ""
  }

  /** The lines of a non-empty file: a final newline ends the last one and opens none. */
  function LinesOf(text: string): seq<string> {
    var lines := Lines.Split(text);
    if IsTerminated(text) then lines[..|lines| - 1] else lines
  }

  // ---- What each line is --------------------------------------------------------------

  function ParseLine<E>(line: string, parse: string -> Parse<E>): Parse<E> { parse(WithoutCr(line)) }

  /** Why a line is skipped: its own reason, unless it is an unterminated tail. */
  function ReasonOf<E>(p: Parse<E>, unterminatedTail: bool): Reason
    requires !p.Parsed?
  {
    if unterminatedTail then PartialLine else if p.NotADocument? then NotJson else InvalidEntry
  }

  function EntriesOf<E>(lines: seq<string>, parse: string -> Parse<E>): seq<E> {
    if lines == [] then []
    else
      var before, p := EntriesOf(lines[..|lines| - 1], parse), ParseLine(lines[|lines| - 1], parse);
      if p.Parsed? then before + [p.entry] else before
  }

  /** All failures, in line order, of a file with `total` lines. */
  function FailuresOf<E>(lines: seq<string>, total: nat, terminated: bool, parse: string -> Parse<E>): seq<Skip> {
    if lines == [] then []
    else
      var before, p := FailuresOf(lines[..|lines| - 1], total, terminated, parse), ParseLine(lines[|lines| - 1], parse);
      if p.Parsed? then before else before + [Skip(|lines|, ReasonOf(p, |lines| == total && !terminated))]
  }

  function FirstOf<T>(items: seq<T>, n: nat): seq<T> { if |items| <= n then items else items[..n] }

  function Beyond<T>(items: seq<T>, n: nat): nat { if |items| <= n then 0 else |items| - n }

  /** The whole answer. */
  function ReadOf<E>(file: FileRead, parse: string -> Parse<E>): LedgerRead<E> {
    match file
    case NotFound => LedgerRead([], [Skip(0, Unreadable)], 0)
    case CannotRead => LedgerRead([], [Skip(0, Unreadable)], 0)
    case TooLarge => LedgerRead([], [Skip(0, FileTooLarge)], 0)
    case Content(text) =>
      if text == "" then LedgerRead([], [], 0)
      else
        var lines := LinesOf(text);
        var failures := FailuresOf(lines, |lines|, IsTerminated(text), parse);
        LedgerRead(EntriesOf(lines, parse), FirstOf(failures, MAX_SKIPPED_LINES), Beyond(failures, MAX_SKIPPED_LINES))
  }

  /** `read_ledger`. */
  method ReadLedger<E>(file: FileRead, parse: string -> Parse<E>) returns (r: LedgerRead<E>)
    ensures r == ReadOf(file, parse)
  {
    if file.NotFound? || file.CannotRead? {
      return LedgerRead([], [Skip(0, Unreadable)], 0);
    }
    if file.TooLarge? {
      return LedgerRead([], [Skip(0, FileTooLarge)], 0);
    }
    if file.text == "" {
      return LedgerRead([], [], 0);
    }
    var lines := Lines.Split(file.text);
    var terminated := lines[|lines| - 1] == "";
    if terminated {
      lines := lines[..|lines| - 1];
    }
    var entries: seq<E> := [];
    var skipped: seq<Skip> := [];
    var omitted := 0;
    for i := 0 to |lines|
      invariant entries == EntriesOf(lines[..i], parse)
      invariant skipped == FirstOf(FailuresOf(lines[..i], |lines|, terminated, parse), MAX_SKIPPED_LINES)
      invariant omitted == Beyond(FailuresOf(lines[..i], |lines|, terminated, parse), MAX_SKIPPED_LINES)
    {
      assert lines[..i + 1][..i] == lines[..i];
      var unterminatedTail := i + 1 == |lines| && !terminated;
      var p := ParseLine(lines[i], parse);
      if p.Parsed? {
        entries := entries + [p.entry];
      } else {
        var skip := Skip(i + 1, ReasonOf(p, unterminatedTail));
        if |skipped| < MAX_SKIPPED_LINES {
          skipped := skipped + [skip];
        } else {
          omitted := omitted + 1;
        }
      }
    }
    assert lines[..|lines|] == lines;
    return LedgerRead(entries, skipped, omitted);
  }

  // ---- Accounting ---------------------------------------------------------------------

  lemma {:induction false} EveryLineCounts<E>(lines: seq<string>, total: nat, terminated: bool,
                                              parse: string -> Parse<E>)
    ensures |EntriesOf(lines, parse)| + |FailuresOf(lines, total, terminated, parse)| == |lines|
  {
    if lines != [] {
      EveryLineCounts(lines[..|lines| - 1], total, terminated, parse);
    }
  }

  /** A failure is recorded for exactly the lines that do not parse, in line order, each with
      the reason of its line. */
  lemma {:induction false} FailuresAre<E>(lines: seq<string>, total: nat, terminated: bool, parse: string -> Parse<E>)
    requires |lines| <= total
    ensures forall s :: s in FailuresOf(lines, total, terminated, parse) <==>
      1 <= s.lineNo <= |lines| && !ParseLine(lines[s.lineNo - 1], parse).Parsed?
      && s.reason == ReasonOf(ParseLine(lines[s.lineNo - 1], parse), s.lineNo == total && !terminated)
    ensures forall i, j :: 0 <= i < j < |FailuresOf(lines, total, terminated, parse)| ==>
      FailuresOf(lines, total, terminated, parse)[i].lineNo < FailuresOf(lines, total, terminated, parse)[j].lineNo
  {
    if lines != [] {
      var init := lines[..|lines| - 1];
      FailuresAre(init, total, terminated, parse);
      var before := FailuresOf(init, total, terminated, parse);
      assert forall i :: 0 <= i < |before| ==> before[i] in before;
      assert forall k :: 0 <= k < |init| ==> init[k] == lines[k];
    }
  }

  /** Every line of a file that was read is an entry, a detailed skip or counted; the details
      are the earliest failures, and no more than the cap. */
  lemma EveryLineIsAccountedFor<E>(text: string, parse: string -> Parse<E>)
    requires text != ""
    ensures
      var r := ReadOf(Content(text), parse);
      && |r.entries| + |r.skipped| + r.omitted == |LinesOf(text)|
      && |r.skipped| <= MAX_SKIPPED_LINES
      && (r.omitted > 0 ==> |r.skipped| == MAX_SKIPPED_LINES)
  {
    EveryLineCounts(LinesOf(text), |LinesOf(text)|, IsTerminated(text), parse);
  }

  /** The line a detailed skip names did not parse, and a partial line is only ever the last
      one of an unterminated file. */
  lemma SkipNamesAFailure<E>(text: string, parse: string -> Parse<E>, i: nat)
    requires text != "" && i < |ReadOf(Content(text), parse).skipped|
    ensures
      var lines, s := LinesOf(text), ReadOf(Content(text), parse).skipped[i];
      && 1 <= s.lineNo <= |lines| && !ParseLine(lines[s.lineNo - 1], parse).Parsed?
      && (s.reason == PartialLine <==> s.lineNo == |lines| && !IsTerminated(text))
  {
    FailuresAre(LinesOf(text), |LinesOf(text)|, IsTerminated(text), parse);
  }

  /** A line before a detailed skip that did not parse is detailed too: the details are the
      earliest failures. */
  lemma EarlierFailureIsDetailed<E>(text: string, parse: string -> Parse<E>, i: nat, k: nat) returns (j: nat)
    requires text != "" && i < |ReadOf(Content(text), parse).skipped|
    requires 1 <= k < ReadOf(Content(text), parse).skipped[i].lineNo && k <= |LinesOf(text)|
    requires !ParseLine(LinesOf(text)[k - 1], parse).Parsed?
    ensures j < i && ReadOf(Content(text), parse).skipped[j].lineNo == k
  {
    var lines := LinesOf(text);
    j := FailureAt(lines, |lines|, IsTerminated(text), parse, i, k);
  }

  lemma FailureAt<E>(lines: seq<string>, total: nat, terminated: bool, parse: string -> Parse<E>, i: nat, k: nat)
    returns (j: nat)
    requires |lines| <= total && i < |FailuresOf(lines, total, terminated, parse)|
    requires 1 <= k < FailuresOf(lines, total, terminated, parse)[i].lineNo && k <= |lines|
    requires !ParseLine(lines[k - 1], parse).Parsed?
    ensures j < i && FailuresOf(lines, total, terminated, parse)[j].lineNo == k
  {
    var failures := FailuresOf(lines, total, terminated, parse);
    FailuresAre(lines, total, terminated, parse);
    var e := Skip(k, ReasonOf(ParseLine(lines[k - 1], parse), k == total && !terminated));
    assert e in failures;
    j :| 0 <= j < |failures| && failures[j] == e;
  }

  // ---- What comes out -----------------------------------------------------------------

  /** How many of the first `n` lines parse. */
  function ParsedAmong<E>(lines: seq<string>, n: nat, parse: string -> Parse<E>): nat
    requires n <= |lines|
  {
    if n == 0 then 0
    else ParsedAmong(lines, n - 1, parse) + if parse(WithoutCr(lines[n - 1])).Parsed? then 1 else 0
  }

  lemma {:induction false} ParsedAmongPrefix<E>(lines: seq<string>, m: nat, n: nat, parse: string -> Parse<E>)
    requires n <= m <= |lines|
    ensures ParsedAmong(lines[..m], n, parse) == ParsedAmong(lines, n, parse)
  {
    if n > 0 {
      ParsedAmongPrefix(lines, m, n - 1, parse);
    }
  }

  lemma {:induction false} EntriesAre<E>(lines: seq<string>, parse: string -> Parse<E>, i: nat)
    requires i < |lines| && parse(WithoutCr(lines[i])).Parsed?
    ensures
      var n := ParsedAmong(lines, i, parse);
      n < |EntriesOf(lines, parse)| && EntriesOf(lines, parse)[n] == parse(WithoutCr(lines[i])).entry
    ensures |EntriesOf(lines, parse)| == ParsedAmong(lines, |lines|, parse)
  {
    var m := |lines| - 1;
    EntriesCount(lines, parse);
    if i < m {
      EntriesAre(lines[..m], parse, i);
      ParsedAmongPrefix(lines, m, i, parse);
    } else {
      EntriesCount(lines[..m], parse);
      ParsedAmongPrefix(lines, m, m, parse);
    }
  }

  lemma {:induction false} EntriesCount<E>(lines: seq<string>, parse: string -> Parse<E>)
    ensures |EntriesOf(lines, parse)| == ParsedAmong(lines, |lines|, parse)
  {
    if lines != [] {
      var m := |lines| - 1;
      EntriesCount(lines[..m], parse);
      ParsedAmongPrefix(lines, m, m, parse);
    }
  }

  /** The entries are the parsed lines, in line order and nothing else: as many as parse, and
      each at the place that the lines before it give. */
  lemma EntriesInLineOrder<E>(text: string, parse: string -> Parse<E>)
    requires text != ""
    ensures
      var lines, entries := LinesOf(text), ReadOf(Content(text), parse).entries;
      && |entries| == ParsedAmong(lines, |lines|, parse)
      && forall i :: 0 <= i < |lines| && parse(WithoutCr(lines[i])).Parsed? ==>
           var n := ParsedAmong(lines, i, parse);
           n < |entries| && entries[n] == parse(WithoutCr(lines[i])).entry
  {
    var lines := LinesOf(text);
    EntriesCount(lines, parse);
    forall i | 0 <= i < |lines| && parse(WithoutCr(lines[i])).Parsed?
      ensures
        var n := ParsedAmong(lines, i, parse);
        n < |EntriesOf(lines, parse)| && EntriesOf(lines, parse)[n] == parse(WithoutCr(lines[i])).entry
    {
      EntriesAre(lines, parse, i);
    }
  }

  /** Every detailed skip has the reason of its line: an unterminated last line is partial,
      any other says whether it was no document or no entry. */
  lemma SkipHasItsReason<E>(text: string, parse: string -> Parse<E>, i: nat)
    requires text != "" && i < |ReadOf(Content(text), parse).skipped|
    ensures
      var lines, s := LinesOf(text), ReadOf(Content(text), parse).skipped[i];
      && 1 <= s.lineNo <= |lines|
      && s.reason ==
           (if s.lineNo == |lines| && text[|text| - 1] != '\n' then PartialLine
            else if parse(WithoutCr(lines[s.lineNo - 1])) == NotADocument then NotJson
            else InvalidEntry)
  {
    FailuresAre(LinesOf(text), |LinesOf(text)|, IsTerminated(text), parse);
    TerminatedEnds(text);
  }

  lemma {:induction false} TerminatedEnds(text: string)
    requires text != ""
    ensures IsTerminated(text) <==> text[|text| - 1] == '\n'
  {
    var rest := Lines.Split(text[1..]);
    assert Lines.Split(text) == if text[0] == '\n' then [""] + rest else [[text[0]] + rest[0]] + rest[1..];
    if |text| > 1 {
      TerminatedEnds(text[1..]);
    } else {
      assert text[1..] == "" && rest == [""];
    }
  }

  /** Reading gives the lines: put together with newlines they are the text. */
  lemma LinesAreTheText(text: string)
    requires text != ""
    ensures Lines.Join(LinesOf(text)) + (if text[|text| - 1] == '\n' then "\n" else "") == text
    ensures forall i :: 0 <= i < |LinesOf(text)| ==> '\n' !in LinesOf(text)[i]
  {
    Lines.JoinSplit(text);
    TerminatedEnds(text);
    var lines := Lines.Split(text);
    if IsTerminated(text) {
      var n := |lines| - 1;
      assert lines == lines[..n] + [""];
      if n > 0 {
        JoinEnd(lines[..n]);
      }
    }
  }

  lemma {:induction false} JoinEnd(lines: seq<string>)
    requires lines != []
    ensures Lines.Join(lines + [""]) == Lines.Join(lines) + "\n"
  {
    if |lines| > 1 {
      JoinEnd(lines[1..]);
      assert (lines + [""])[1..] == lines[1..] + [""];
    }
  }

  /** Only trailing carriage returns are taken off a line. */
  lemma {:induction false} CrIsTakenOff(line: string)
    ensures |WithoutCr(line)| <= |line| && WithoutCr(line) == line[..|WithoutCr(line)|]
    ensures forall i :: |WithoutCr(line)| <= i < |line| ==> line[i] == '\r'
    ensures WithoutCr(line) != "" ==> WithoutCr(line)[|WithoutCr(line)| - 1] != '\r'
  {
    if line != "" && line[|line| - 1] == '\r' {
      CrIsTakenOff(line[..|line| - 1]);
    }
  }

  /** A file that gave no text is one skip of no line; an empty one is nothing at all; and no
      more than a thousand failures are detailed. */
  lemma OtherReads<E>(parse: string -> Parse<E>, text: string)
    ensures ReadOf(NotFound, parse) == LedgerRead([], [Skip(0, Unreadable)], 0)
    ensures ReadOf(CannotRead, parse) == LedgerRead([], [Skip(0, Unreadable)], 0)
    ensures ReadOf(TooLarge, parse) == LedgerRead([], [Skip(0, FileTooLarge)], 0)
    ensures ReadOf(Content(""), parse) == LedgerRead([], [], 0)
    ensures ReadOf(Content(text), parse).omitted > 0 ==> |ReadOf(Content(text), parse).skipped| == 1000
  {
  }
}
