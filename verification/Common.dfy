/** Vocabulary every module shares: optional values, first-seen de-duplication, and the
    order `sorted` gives strings. */
module Common {

  datatype Option<+T> = None | Some(value: T)

  datatype Result<+T, +E> = Ok(value: T) | Fail(error: E)

  /** A list with one element taken out. */
  function Without<T>(items: seq<T>, i: nat): seq<T>
    requires i < |items|
  {
    items[..i] + items[i + 1..]
  }

  ghost predicate Distinct<T>(s: seq<T>) {
    forall i, j :: 0 <= i < j < |s| ==> s[i] != s[j]
  }

  /** `dict.fromkeys(s)`: each element once, in first-seen order. */
  function Dedup<T(==, !new)>(s: seq<T>): (d: seq<T>)
    ensures Distinct(d)
    ensures forall x :: x in d <==> x in s
  {
    if s == [] then []
    else
      var d := Dedup(s[..|s| - 1]);
      var last := s[|s| - 1];
      assert s == s[..|s| - 1] + [last];
      if last in d then d else d + [last]
  }

  /** First-seen order: before an element's first occurrence stand exactly the elements that
      come before it in the result. */
  lemma {:induction false} DedupIsFirstSeen<T(!new)>(s: seq<T>, j: nat)
    requires j < |Dedup(s)|
    ensures exists p: nat :: IsFirstSeen(s, Dedup(s), j, p)
  {
    var n := |s| - 1;
    var d := Dedup(s[..n]);
    if j < |d| {
      DedupIsFirstSeen(s[..n], j);
      var p: nat :| IsFirstSeen(s[..n], d, j, p);
      assert s[..n][..p] == s[..p] && Dedup(s)[..j] == d[..j];
      assert IsFirstSeen(s, Dedup(s), j, p);
    } else {
      assert Dedup(s)[..j] == d;
      assert IsFirstSeen(s, Dedup(s), j, n);
    }
  }

  ghost predicate IsFirstSeen<T(!new)>(s: seq<T>, d: seq<T>, j: nat, p: nat)
    requires j < |d|
  {
    && p < |s| && s[p] == d[j] && d[j] !in s[..p]
    && forall x :: x in d[..j] <==> x in s[..p]
  }

  /** Python's order on strings: lexicographic by code point. */
  predicate StrLess(a: string, b: string) {
    if b == [] then false
    else a == [] || a[0] < b[0] || (a[0] == b[0] && StrLess(a[1..], b[1..]))
  }

  /** The first difference decides: a smaller character, or the end of the string. */
  predicate DiffersAt(a: string, b: string, k: nat) {
    k <= |a| && k < |b| && a[..k] == b[..k] && (k == |a| || a[k] < b[k])
  }

  lemma {:induction false} StrLessIs(a: string, b: string)
    ensures StrLess(a, b) <==> exists k: nat :: DiffersAt(a, b, k)
  {
    if a == [] || b == [] || a[0] < b[0] {
      assert b != [] ==> DiffersAt(a, b, 0);
    } else if a[0] == b[0] {
      StrLessIs(a[1..], b[1..]);
      forall k: nat ensures DiffersAt(a, b, k + 1) <==> DiffersAt(a[1..], b[1..], k) {
        if k < |a| && k < |b| - 1 {
          assert a[..k + 1] == [a[0]] + a[1..][..k] && b[..k + 1] == [b[0]] + b[1..][..k];
          assert a[1..][..k] == a[..k + 1][1..] && b[1..][..k] == b[..k + 1][1..];
        }
      }
      if StrLess(a, b) {
        var k: nat :| DiffersAt(a[1..], b[1..], k);
        assert DiffersAt(a, b, k + 1);
      }
      forall k: nat | DiffersAt(a, b, k) ensures StrLess(a, b) {
        assert DiffersAt(a[1..], b[1..], k - 1);
      }
    } else {
      forall k: nat ensures !DiffersAt(a, b, k) {
        if k > 0 && k <= |a| && k < |b| {
          assert a[..k][0] == a[0] && b[..k][0] == b[0];
        }
      }
    }
  }

  lemma {:induction false} StrLessTotal(a: string, b: string)
    ensures a == b || StrLess(a, b) || StrLess(b, a)
  {
    if a != [] && b != [] && a[0] == b[0] {
      StrLessTotal(a[1..], b[1..]);
      assert a == [a[0]] + a[1..] && b == [b[0]] + b[1..];
    }
  }

  lemma {:induction false} StrLessTransitive(a: string, b: string, c: string)
    requires StrLess(a, b) && StrLess(b, c)
    ensures StrLess(a, c)
  {
    if a != [] && a[0] == b[0] && b[0] == c[0] {
      StrLessTransitive(a[1..], b[1..], c[1..]);
    }
  }

  lemma {:induction false} StrLessIrreflexive(a: string)
    ensures !StrLess(a, a)
  {
    if a != [] {
      StrLessIrreflexive(a[1..]);
    }
  }

  ghost predicate StrictlySorted(s: seq<string>) {
    forall i, j :: 0 <= i < j < |s| ==> StrLess(s[i], s[j])
  }

  /** Where `x` belongs in a strictly sorted sequence that does not hold it. */
  function InsertSorted(x: string, s: seq<string>): (r: seq<string>)
    ensures forall y :: y in r <==> y == x || y in s
  {
    if s == [] || StrLess(x, s[0]) then [x] + s
    else
      assert forall y :: y in s <==> y == s[0] || y in s[1..];
      [s[0]] + InsertSorted(x, s[1..])
  }

  lemma {:induction false} InsertSortedIsSorted(x: string, s: seq<string>)
    requires StrictlySorted(s) && x !in s
    ensures StrictlySorted(InsertSorted(x, s))
  {
    if s == [] || StrLess(x, s[0]) {
      forall j | 0 <= j < |s| ensures StrLess(x, s[j]) {
        if j > 0 { StrLessTransitive(x, s[0], s[j]); }
      }
    } else {
      StrLessTotal(x, s[0]);
      InsertSortedIsSorted(x, s[1..]);
      ConsIsSorted(s[0], InsertSorted(x, s[1..]));
    }
  }

  lemma ConsIsSorted(x: string, s: seq<string>)
    requires StrictlySorted(s) && forall y :: y in s ==> StrLess(x, y)
    ensures StrictlySorted([x] + s)
  {
  }

  /** `sorted(xs)` for a set of strings. */
  ghost function SortedSet(xs: set<string>): (r: seq<string>)
    ensures StrictlySorted(r) && forall x :: x in r <==> x in xs
  {
    if xs == {} then []
    else
      var x :| x in xs;
      InsertSortedIsSorted(x, SortedSet(xs - {x}));
      InsertSorted(x, SortedSet(xs - {x}))
  }

  lemma TailOfSorted(a: seq<string>)
    requires StrictlySorted(a) && a != []
    ensures StrictlySorted(a[1..])
    ensures forall x :: x in a[1..] <==> x in a && x != a[0]
  {
    StrLessIrreflexive(a[0]);
    assert a == [a[0]] + a[1..];
  }

  /** Sorting has one answer: a strictly sorted sequence is its set of elements. */
  lemma {:induction false} SortedUnique(a: seq<string>, b: seq<string>)
    requires StrictlySorted(a) && StrictlySorted(b)
    requires forall x :: x in a <==> x in b
    ensures a == b
  {
    assert a != [] ==> a[0] in b;
    assert b != [] ==> b[0] in a;
    if a != [] {
      assert a[0] == b[0] by {
        var i :| 0 <= i < |b| && b[i] == a[0];
        var j :| 0 <= j < |a| && a[j] == b[0];
        if i > 0 && j > 0 {
          StrLessTransitive(a[0], b[0], a[0]);
          StrLessIrreflexive(a[0]);
        }
      }
      TailOfSorted(a);
      TailOfSorted(b);
      SortedUnique(a[1..], b[1..]);
      assert a == [a[0]] + a[1..] && b == [b[0]] + b[1..];
    }
  }
}
