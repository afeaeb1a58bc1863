/** Text files as Python's text mode reads them, and how many lines that makes. */
module Newlines {
  import opened Common
  import opened Lines

  /** Universal newlines: `"\r\n"` and a lone `"\r"` are read as `"\n"`. Writing leaves both. */
  function Universal(text: string): string
    decreases |text|
  {
    if text == "" then ""
    else if text[0] != '\r' then [text[0]] + Universal(text[1..])
    else ['\n'] + Universal(if |text| > 1 && text[1] == '\n' then text[2..] else text[1..])
  }

  lemma {:induction false} UniversalHasNoReturn(text: string)
    ensures '\r' !in Universal(text)
    decreases |text|
  {
    if text != "" {
      if text[0] == '\r' && |text| > 1 && text[1] == '\n' {
        UniversalHasNoReturn(text[2..]);
      } else {
        UniversalHasNoReturn(text[1..]);
      }
    }
  }

  /** What comes before a text without `"\r"` is read as it stands. */
  lemma {:induction false} UniversalBehind(a: string, b: string)
    requires '\r' !in a
    ensures Universal(a + b) == a + Universal(b)
  {
    if a == "" {
      assert a + b == b;
    } else {
      assert a[0] in a && (a + b)[1..] == a[1..] + b;
      UniversalBehind(a[1..], b);
    }
  }

  /** A text is read as it was written exactly when it holds no `"\r"`. */
  lemma UniversalIsSame(text: string)
    ensures Universal(text) == text <==> '\r' !in text
  {
    UniversalHasNoReturn(text);
    if '\r' !in text {
      UniversalBehind(text, "");
      assert text + "" == text;
    }
  }

  lemma ReadOne(c: char, rest: string)
    requires c != '\r' || rest == "" || rest[0] != '\n'
    ensures Universal([c] + rest) == [if c == '\r' then '\n' else c] + Universal(rest)
  {
    assert ([c] + rest)[1..] == rest;
  }

  lemma ReadPair(rest: string)
    ensures Universal(['\r'] + (['\n'] + rest)) == ['\n'] + Universal(rest)
  {
    assert (['\r'] + (['\n'] + rest))[2..] == rest;
  }

  /** Each way to end a line is read as one newline. */
  lemma EachBreakIsRead(before: string, rest: string)
    requires '\r' !in before
    ensures Universal(before + ("\r\n" + rest)) == before + ("\n" + Universal(rest))
    ensures Universal(before + ("\n" + rest)) == before + ("\n" + Universal(rest))
    ensures rest == "" || rest[0] != '\n' ==> Universal(before + ("\r" + rest)) == before + ("\n" + Universal(rest))
  {
    UniversalBehind(before, "\r\n" + rest);
    UniversalBehind(before, "\n" + rest);
    UniversalBehind(before, "\r" + rest);
    assert "\r\n" + rest == ['\r'] + (['\n'] + rest);
    ReadPair(rest);
    ReadOne('\n', rest);
    if rest == "" || rest[0] != '\n' {
      ReadOne('\r', rest);
    }
  }

  lemma Regroup(a: string, b: string, c: string)
    ensures (a + b) + c == a + (b + c)
  {
  }

  lemma SplitBehindOne(c: char, rest: string, b: string)
    requires c != '\r' || (if rest != "" then rest[0] != '\n' else b == "" || b[0] != '\n')
    requires Universal(rest + b) == Universal(rest) + Universal(b)
    ensures Universal(([c] + rest) + b) == Universal([c] + rest) + Universal(b)
  {
    ReadOne(c, rest);
    ReadOne(c, rest + b);
    Regroup([c], rest, b);
    Regroup([if c == '\r' then '\n' else c], Universal(rest), Universal(b));
  }

  lemma SplitBehindPair(rest: string, b: string)
    requires Universal(rest + b) == Universal(rest) + Universal(b)
    ensures Universal((['\r'] + (['\n'] + rest)) + b) == Universal(['\r'] + (['\n'] + rest)) + Universal(b)
  {
    ReadPair(rest);
    ReadPair(rest + b);
    Regroup(['\r'], ['\n'] + rest, b);
    Regroup(['\n'], rest, b);
    Regroup(['\n'], Universal(rest), Universal(b));
  }

  /** Reading splits anywhere but inside a `"\r\n"`. */
  lemma {:induction false} UniversalSplits(a: string, b: string)
    requires a == "" || a[|a| - 1] != '\r' || b == "" || b[0] != '\n'
    ensures Universal(a + b) == Universal(a) + Universal(b)
    decreases |a|
  {
    if a == "" {
      assert a + b == b;
    } else if a[0] == '\r' && |a| > 1 && a[1] == '\n' {
      UniversalSplits(a[2..], b);
      SplitBehindPair(a[2..], b);
      assert a == ['\r'] + (['\n'] + a[2..]);
    } else {
      UniversalSplits(a[1..], b);
      SplitBehindOne(a[0], a[1..], b);
      assert a == [a[0]] + a[1..];
    }
  }

  predicate HasBreak(s: string) { '\n' in s || '\r' in s }

  lemma {:induction false} BreaksAreRead(s: string)
    ensures '\n' in Universal(s) <==> HasBreak(s)
    decreases |s|
  {
    if s != "" && s[0] != '\r' {
      BreaksAreRead(s[1..]);
      assert s == [s[0]] + s[1..];
    }
  }

  // ---- Counting lines -----------------------------------------------------------------

  lemma {:induction false} LinesAdd(a: string, b: string)
    ensures |Split(a + b)| == |Split(a)| + |Split(b)| - 1
  {
    if a == "" {
      assert a + b == b;
    } else {
      assert (a + b)[1..] == a[1..] + b;
      LinesAdd(a[1..], b);
    }
  }

  lemma {:induction false} BreakMakesLines(s: string)
    ensures |Split(s)| > 1 <==> '\n' in s
  {
    if s != "" {
      BreakMakesLines(s[1..]);
      assert s == [s[0]] + s[1..];
    }
  }

  // ---- Joined lines -------------------------------------------------------------------

  lemma {:induction false} JoinAdds(a: seq<string>, b: seq<string>)
    requires a != [] && b != []
    ensures Join(a + b) == Join(a) + ("\n" + Join(b))
  {
    if |a| == 1 {
      assert (a + b)[1..] == b;
      assert Join(a + b) == a[0] + ['\n'] + Join(b);
    } else {
      assert (a + b)[1..] == a[1..] + b;
      JoinAdds(a[1..], b);
      assert Join(a + b) == a[0] + ['\n'] + Join(a[1..] + b);
      assert Join(a) == a[0] + ['\n'] + Join(a[1..]);
    }
  }

  /** Joined lines avoid a character exactly when each does. */
  lemma {:induction false} JoinAvoids(lines: seq<string>, c: char)
    requires c != '\n'
    ensures c !in Join(lines) <==> forall i :: 0 <= i < |lines| ==> c !in lines[i]
  {
    if |lines| > 1 {
      JoinAvoids(lines[1..], c);
      assert lines == [lines[0]] + lines[1..];
    }
  }
}
