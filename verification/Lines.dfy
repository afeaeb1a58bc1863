/** Python string primitives the roadmap editor and parser use: whitespace, `strip`,
    `split("\n")`, `"\n".join` and `splitlines`. */
module Lines {
  import opened Common

  /** `str.isspace` on one character. */
  predicate IsSpace(c: char) {
    if c < '\U{80}' then c == ' ' || '\t' <= c <= '\r' || '\U{1c}' <= c <= '\U{1f}' else IsWideSpace(c)
  }

  predicate IsWideSpace(c: char) {
    || c == '\U{85}' || c == '\U{a0}' || c == '\U{1680}' || '\U{2000}' <= c <= '\U{200a}'
    || c == '\U{2028}' || c == '\U{2029}' || c == '\U{202f}' || c == '\U{205f}' || c == '\U{3000}'
  }

  /** The characters `splitlines` ends a line at. */
  predicate IsLineBoundary(c: char) {
    || '\n' <= c <= '\r' || '\U{1c}' <= c <= '\U{1e}' || c == '\U{85}' || c == '\U{2028}' || c == '\U{2029}'
  }

  /** The first visible position at or after `i`, or the length. */
  function VisibleFrom(s: string, i: nat): (j: nat)
    requires i <= |s|
    ensures i <= j <= |s|
    decreases |s| - i
  {
    if i < |s| && IsSpace(s[i]) then VisibleFrom(s, i + 1) else i
  }

  /** Just behind the last visible position before `j`, or 0. */
  function VisibleTo(s: string, j: nat): (k: nat)
    requires j <= |s|
    ensures k <= j
  {
    if j > 0 && IsSpace(s[j - 1]) then VisibleTo(s, j - 1) else j
  }

  function StripLeft(s: string): string
    decreases |s|
  {
    if s != "" && IsSpace(s[0]) then StripLeft(s[1..]) else s
  }

  function StripRight(s: string): string
    decreases |s|
  {
    if s != "" && IsSpace(s[|s| - 1]) then StripRight(s[..|s| - 1]) else s
  }

  function Strip(s: string): string { StripRight(StripLeft(s)) }

  function LeadingSpaces(s: string): (n: nat)
    ensures n <= |s|
  {
    VisibleFrom(s, 0)
  }

  lemma {:induction false} VisibleFromIs(s: string, i: nat, j: nat)
    requires i <= |s|
    ensures
      VisibleFrom(s, i) == j <==>
        i <= j <= |s| && (forall k :: i <= k < j ==> IsSpace(s[k])) && (j < |s| ==> !IsSpace(s[j]))
    decreases |s| - i
  {
    if i < |s| && IsSpace(s[i]) {
      VisibleFromIs(s, i + 1, j);
    }
  }

  lemma {:induction false} VisibleToIs(s: string, j: nat, k: nat)
    requires j <= |s|
    ensures
      VisibleTo(s, j) == k <==>
        k <= j && (forall i :: k <= i < j ==> IsSpace(s[i])) && (k > 0 ==> !IsSpace(s[k - 1]))
  {
    if j > 0 && IsSpace(s[j - 1]) {
      VisibleToIs(s, j - 1, k);
    }
  }

  /** The leading run of whitespace is maximal. */
  lemma LeadingSpacesAre(s: string)
    ensures forall i :: 0 <= i < LeadingSpaces(s) ==> IsSpace(s[i])
    ensures LeadingSpaces(s) < |s| ==> !IsSpace(s[LeadingSpaces(s)])
  {
    VisibleFromIs(s, 0, LeadingSpaces(s));
  }

  /** A whitespace run followed by a visible character is exactly the leading run. */
  lemma LeadingSpacesOf(spaces: string, rest: string)
    requires forall i :: 0 <= i < |spaces| ==> IsSpace(spaces[i])
    requires rest != "" && !IsSpace(rest[0])
    ensures LeadingSpaces(spaces + rest) == |spaces|
  {
    VisibleFromIs(spaces + rest, 0, |spaces|);
  }

  /** `lstrip` drops the leading run and nothing else. */
  lemma {:induction false} StripLeftIs(s: string, i: nat)
    requires i <= |s|
    ensures StripLeft(s[i..]) == s[VisibleFrom(s, i)..]
    decreases |s| - i
  {
    if i < |s| && IsSpace(s[i]) {
      assert s[i..][1..] == s[i + 1..];
      StripLeftIs(s, i + 1);
    }
  }

  lemma {:induction false} StripLeftSkips(spaces: string, rest: string)
    requires forall i :: 0 <= i < |spaces| ==> IsSpace(spaces[i])
    requires rest != "" && !IsSpace(rest[0])
    ensures StripLeft(spaces + rest) == rest
  {
    if spaces == "" {
      assert spaces + rest == rest;
    } else {
      StripLeftSkips(spaces[1..], rest);
      assert (spaces + rest)[1..] == spaces[1..] + rest;
    }
  }

  /** `rstrip` drops the trailing run and nothing else. */
  lemma {:induction false} StripRightIs(s: string, j: nat)
    requires j <= |s|
    ensures StripRight(s[..j]) == s[..VisibleTo(s, j)]
  {
    if j > 0 && IsSpace(s[j - 1]) {
      assert s[..j][..j - 1] == s[..j - 1];
      StripRightIs(s, j - 1);
    }
  }

  /** Text that ends in a visible character is all that `rstrip` keeps of it. */
  lemma {:induction false} StripRightKeeps(s: string)
    ensures StripRight(s) != "" ==> !IsSpace(StripRight(s)[|StripRight(s)| - 1])
    ensures |StripRight(s)| <= |s| && StripRight(s) == s[..|StripRight(s)|]
  {
    if s != "" && IsSpace(s[|s| - 1]) {
      StripRightKeeps(s[..|s| - 1]);
    }
  }

  /** `rstrip` of text followed by a visible character reaches past the text. */
  lemma {:induction false} StripRightConcat(a: string, b: string)
    requires b != "" && !IsSpace(b[0])
    ensures StripRight(a + b) == a + StripRight(b)
  {
    if IsSpace(b[|b| - 1]) {
      assert (a + b)[..|a + b| - 1] == a + b[..|b| - 1];
      StripRightConcat(a, b[..|b| - 1]);
    }
  }

  lemma StripRightIdempotent(s: string)
    ensures StripRight(StripRight(s)) == StripRight(s)
  {
    StripRightKeeps(s);
  }

  /** `strip` is a slice of the text that starts at the first visible character. */
  lemma StripIsSlice(s: string)
    ensures LeadingSpaces(s) + |Strip(s)| <= |s|
    ensures forall k :: 0 <= k < |Strip(s)| ==> Strip(s)[k] == s[LeadingSpaces(s) + k]
  {
    assert s[0..] == s;
    StripLeftIs(s, 0);
    StripRightKeeps(StripLeft(s));
  }

  /** Stripping keeps every visible character. */
  lemma StripReaches(s: string, k: nat)
    requires k < |s| && !IsSpace(s[k])
    ensures LeadingSpaces(s) <= k < LeadingSpaces(s) + |Strip(s)|
  {
    LeadingSpacesAre(s);
    var a, t := LeadingSpaces(s), StripLeft(s);
    assert s[0..] == s;
    StripLeftIs(s, 0);
    assert t[k - a] == s[k] && t[..|t|] == t;
    StripRightIs(t, |t|);
    VisibleToIs(t, |t|, VisibleTo(t, |t|));
  }

  /** Stripping text that neither begins nor ends in whitespace changes nothing. */
  lemma StripNothing(s: string)
    requires s == "" || (!IsSpace(s[0]) && !IsSpace(s[|s| - 1]))
    ensures Strip(s) == s
  {
  }

  predicate StartsWith(s: string, prefix: string) {
    |prefix| <= |s| && s[..|prefix|] == prefix
  }

  /** `text.split(sep)`, for lines unless told otherwise. */
  function Split(text: string, sep: char := '\n'): (lines: seq<string>)
    ensures lines != []
    ensures forall i :: 0 <= i < |lines| ==> sep !in lines[i]
  {
    if text == "" then [""]
    else
      var rest := Split(text[1..], sep);
      if text[0] == sep then [""] + rest else [[text[0]] + rest[0]] + rest[1..]
  }

  /** `sep.join(lines)`. */
  function Join(lines: seq<string>, sep: char := '\n'): string {
    if lines == [] then ""
    else if |lines| == 1 then lines[0]
    else lines[0] + [sep] + Join(lines[1..], sep)
  }

  /** `text.splitlines()`: `"\r\n"` is one boundary, and a final boundary opens no line. */
  function SplitLines(text: string): seq<string>
    decreases |text|
  {
    if text == "" then []
    else if IsLineBoundary(text[0]) then
      [""] + SplitLines(if text[0] == '\r' && |text| > 1 && text[1] == '\n' then text[2..] else text[1..])
    else
      var rest := SplitLines(text[1..]);
      if rest == [] then [[text[0]]] else [[text[0]] + rest[0]] + rest[1..]
  }

  /** A line ends at the first boundary, and the rest is cut the same way. */
  lemma {:induction false} LineIsCut(line: string, end: string, rest: string)
    requires forall i :: 0 <= i < |line| ==> !IsLineBoundary(line[i])
    requires end == "\r\n" || (|end| == 1 && IsLineBoundary(end[0]))
    requires end == "\r" ==> rest == "" || rest[0] != '\n'
    ensures SplitLines(line + (end + rest)) == [line] + SplitLines(rest)
  {
    var text := line + (end + rest);
    if line == "" {
      assert text == end + rest;
      if |end| == 2 {
        assert text[2..] == rest;
      } else {
        assert text[1..] == rest;
      }
    } else {
      LineIsCut(line[1..], end, rest);
      assert text[1..] == line[1..] + (end + rest);
      assert [line[0]] + line[1..] == line;
    }
  }

  /** The ten boundaries, one by one. */
  lemma BoundariesAre(c: char)
    ensures IsLineBoundary(c) <==>
      || c == '\n' || c == '\U{b}' || c == '\U{c}' || c == '\r' || c == '\U{1c}' || c == '\U{1d}' || c == '\U{1e}'
      || c == '\U{85}' || c == '\U{2028}' || c == '\U{2029}'
  {
  }

  lemma {:induction false} JoinSplit(text: string, sep: char := '\n')
    ensures Join(Split(text, sep), sep) == text
  {
    if text != "" {
      JoinSplit(text[1..], sep);
      var rest, all := Split(text[1..], sep), Split(text, sep);
      if text[0] == sep {
        assert all[1..] == rest;
      } else if |rest| > 1 {
        assert all[1..] == rest[1..];
      }
    }
  }

  lemma {:induction false} SplitJoin(lines: seq<string>, sep: char := '\n')
    requires lines != [] && forall i :: 0 <= i < |lines| ==> sep !in lines[i]
    ensures Split(Join(lines, sep), sep) == lines
  {
    if |lines| == 1 {
      SplitOneLine(lines[0], sep);
    } else {
      SplitJoin(lines[1..], sep);
      SplitAtSeparator(lines[0], Join(lines[1..], sep), sep);
      assert lines[0] + [sep] + Join(lines[1..], sep) == lines[0] + ([sep] + Join(lines[1..], sep));
    }
  }

  lemma {:induction false} SplitOneLine(line: string, sep: char)
    requires sep !in line
    ensures Split(line, sep) == [line]
  {
    if line != "" {
      SplitOneLine(line[1..], sep);
      assert line[0] in line && [line[0]] + line[1..] == line;
    }
  }

  lemma {:induction false} SplitAtSeparator(line: string, rest: string, sep: char)
    requires sep !in line
    ensures Split(line + ([sep] + rest), sep) == [line] + Split(rest, sep)
  {
    var text := line + ([sep] + rest);
    if line == "" {
      assert text[1..] == rest;
    } else {
      SplitAtSeparator(line[1..], rest, sep);
      assert text[1..] == line[1..] + ([sep] + rest);
      assert line[0] in line && [line[0]] + line[1..] == line;
    }
  }

  /** No line boundary but `\n`: where the parser and the editor see the same lines. */
  ghost predicate OnlyNewlines(text: string) {
    forall i :: 0 <= i < |text| && IsLineBoundary(text[i]) ==> text[i] == '\n'
  }

  lemma {:induction false} SplitLinesIsSplit(text: string)
    requires OnlyNewlines(text)
    ensures
      var lines := Split(text);
      SplitLines(text) == if lines[|lines| - 1] == "" then lines[..|lines| - 1] else lines
  {
    if text != "" {
      SplitLinesIsSplit(text[1..]);
      var rest, all := Split(text[1..]), Split(text);
      if text[0] == '\n' {
        assert all[1..] == rest;
        assert all[..|all| - 1] == [""] + rest[..|rest| - 1];
      } else if |rest| > 1 {
        assert all[..|all| - 1] == [[text[0]] + rest[0]] + rest[1..|rest| - 1];
        assert all[|all| - 1] == rest[|rest| - 1];
      } else {
        assert all == [[text[0]] + rest[0]] && all[..0] == [];
        assert rest[0] == "" ==> SplitLines(text[1..]) == [] && [text[0]] + rest[0] == [text[0]];
      }
    }
  }

  lemma {:induction false} OnlyNewlinesJoin(lines: seq<string>)
    ensures OnlyNewlines(Join(lines)) <==> forall i :: 0 <= i < |lines| ==> OnlyNewlines(lines[i])
  {
    if |lines| > 1 {
      OnlyNewlinesJoin(lines[1..]);
      var head, tail := lines[0], Join(lines[1..]);
      OnlyNewlinesConcat(head, "\n" + tail);
      OnlyNewlinesConcat("\n", tail);
      assert head + ("\n" + tail) == Join(lines);
      assert lines == [head] + lines[1..];
    }
  }

  lemma OnlyNewlinesConcat(a: string, b: string)
    ensures OnlyNewlines(a + b) <==> OnlyNewlines(a) && OnlyNewlines(b)
  {
    if OnlyNewlines(a + b) {
      forall i | 0 <= i < |b| ensures IsLineBoundary(b[i]) ==> b[i] == '\n' {
        assert (a + b)[|a| + i] == b[i];
      }
      forall i | 0 <= i < |a| ensures IsLineBoundary(a[i]) ==> a[i] == '\n' {
        assert (a + b)[i] == a[i];
      }
    }
  }
}
