/** JSON values as the abstract trees `json.loads` builds, and the operations of the
    insertion-ordered Python dict that carries an object's members. */
module Json {
  import opened Common

  datatype Value =
    | Null
    | Bool(b: bool)
    | Num(n: int)
    | Str(s: string)
    | Arr(items: seq<Value>)
    | Obj(members: Dict)

  type Dict = seq<(string, Value)>

  /** A Python dict holds each key once. */
  ghost predicate IsDict(d: Dict) {
    forall i, j :: 0 <= i < j < |d| ==> d[i].0 != d[j].0
  }

  /** What `json.loads` can build: no object holds a key twice, at any depth. */
  ghost predicate WellFormed(v: Value) {
    match v
    case Arr(items) => forall i :: 0 <= i < |items| ==> WellFormed(items[i])
    case Obj(members) => IsDict(members) && forall i :: 0 <= i < |members| ==> WellFormed(members[i].1)
    case _ => true
  }

  ghost predicate WellFormedDict(d: Dict) { WellFormed(Obj(d)) }

  /** `d.get(key)`. */
  function Get(d: Dict, key: string): Option<Value> {
    if d == [] then None
    else if d[0].0 == key then Some(d[0].1)
    else Get(d[1..], key)
  }

  /** `key in d`. */
  predicate Has(d: Dict, key: string) { Get(d, key).Some? }

  /** A key is found exactly when some member has it. */
  lemma {:induction false} HasIs(d: Dict, key: string)
    ensures Has(d, key) <==> exists i :: 0 <= i < |d| && d[i].0 == key
  {
    if d != [] {
      HasIs(d[1..], key);
      assert forall i :: 1 <= i < |d| ==> d[i] == d[1..][i - 1];
    }
  }

  /** `d[key] = v`: in place when the key is there, appended when it is not. */
  function Put(d: Dict, key: string, v: Value): Dict {
    if d == [] then [(key, v)]
    else if d[0].0 == key then [(key, v)] + d[1..]
    else [d[0]] + Put(d[1..], key, v)
  }

  /** Dict order: a key that is there keeps its place, a new one goes last. */
  lemma {:induction false} PutKeepsOrder(d: Dict, key: string, v: Value)
    requires IsDict(d)
    ensures !Has(d, key) ==> Put(d, key, v) == d + [(key, v)]
    ensures Has(d, key) ==>
              && |Put(d, key, v)| == |d|
              && forall i :: 0 <= i < |d| ==> Put(d, key, v)[i] == if d[i].0 == key then (key, v) else d[i]
  {
    if d != [] && d[0].0 != key {
      PutKeepsOrder(d[1..], key, v);
      assert d == [d[0]] + d[1..];
    }
  }

  /** `d.pop(key, None)`. */
  function Pop(d: Dict, key: string): Dict {
    if d == [] then []
    else if d[0].0 == key then d[1..]
    else [d[0]] + Pop(d[1..], key)
  }

  lemma WithoutBehind<T>(first: T, rest: seq<T>, i: nat)
    requires i < |rest|
    ensures Without([first] + rest, i + 1) == [first] + Without(rest, i)
  {
  }

  /** Popping takes one member out and keeps the order of the others. */
  lemma {:induction false} PopKeepsOrder(d: Dict, key: string)
    ensures !Has(d, key) ==> Pop(d, key) == d
    ensures Has(d, key) ==> exists i :: 0 <= i < |d| && d[i].0 == key && Pop(d, key) == Without(d, i)
  {
    if d != [] {
      if d[0].0 == key {
        assert Pop(d, key) == Without(d, 0);
      } else {
        PopKeepsOrder(d[1..], key);
        assert d == [d[0]] + d[1..];
        if Has(d, key) {
          var i :| 0 <= i < |d[1..]| && d[1..][i].0 == key && Pop(d[1..], key) == Without(d[1..], i);
          WithoutBehind(d[0], d[1..], i);
          assert d[i + 1].0 == key;
        }
      }
    }
  }

  /** Python truthiness. */
  predicate Truthy(v: Value) {
    match v
    case Null => false
    case Bool(b) => b
    case Num(n) => n != 0
    case Str(s) => s != ""
    case Arr(items) => items != []
    case Obj(members) => members != []
  }

  lemma {:induction false} GetAt(d: Dict, i: nat)
    requires IsDict(d) && i < |d|
    ensures Get(d, d[i].0) == Some(d[i].1)
  {
    if i > 0 {
      GetAt(d[1..], i - 1);
    }
  }

  lemma {:induction false} GetPut(d: Dict, key: string, v: Value, other: string)
    ensures Get(Put(d, key, v), other) == if other == key then Some(v) else Get(d, other)
  {
    if d != [] {
      if d[0].0 == key {
        assert Put(d, key, v)[1..] == d[1..];
      } else {
        GetPut(d[1..], key, v, other);
        assert Put(d, key, v)[1..] == Put(d[1..], key, v);
      }
    }
  }

  lemma {:induction false} GetPop(d: Dict, key: string, other: string)
    requires IsDict(d)
    ensures Get(Pop(d, key), other) == if other == key then None else Get(d, other)
  {
    if d != [] {
      if d[0].0 == key {
        assert Pop(d, key) == d[1..];
        HasIs(d[1..], key);
        forall i | 0 <= i < |d[1..]| ensures d[1..][i].0 != key {
          assert d[1..][i] == d[i + 1];
        }
      } else {
        GetPop(d[1..], key, other);
        assert Pop(d, key)[1..] == Pop(d[1..], key);
      }
    }
  }

  lemma {:induction false} HasPut(d: Dict, key: string, v: Value, other: string)
    ensures Has(Put(d, key, v), other) <==> other == key || Has(d, other)
  {
    GetPut(d, key, v, other);
  }

  lemma {:induction false} PutIsDict(d: Dict, key: string, v: Value)
    requires IsDict(d)
    ensures IsDict(Put(d, key, v))
  {
    if d != [] {
      if d[0].0 != key {
        var r := Put(d[1..], key, v);
        PutIsDict(d[1..], key, v);
        forall j | 0 <= j < |r| ensures r[j].0 != d[0].0 {
          HasPut(d[1..], key, v, r[j].0);
          HasIs(r, r[j].0);
          HasIs(d[1..], r[j].0);
          if r[j].0 != key {
            var i :| 0 <= i < |d[1..]| && d[1..][i].0 == r[j].0;
            assert d[i + 1].0 == r[j].0;
          }
        }
      }
    }
  }

  lemma {:induction false} PopIsDict(d: Dict, key: string)
    requires IsDict(d)
    ensures IsDict(Pop(d, key))
    ensures forall x :: x in Pop(d, key) ==> x in d
  {
    if d != [] {
      assert d == [d[0]] + d[1..];
      if d[0].0 != key {
        var r := Pop(d[1..], key);
        PopIsDict(d[1..], key);
        forall j | 0 <= j < |r| ensures r[j].0 != d[0].0 {
          assert r[j] in d[1..];
          var i :| 0 <= i < |d[1..]| && d[1..][i] == r[j];
          assert d[i + 1] == r[j];
        }
      }
    }
  }

  lemma {:induction false} PutMembers(d: Dict, key: string, v: Value)
    ensures forall x :: x in Put(d, key, v) ==> x in d || x == (key, v)
  {
    if d != [] {
      assert d == [d[0]] + d[1..];
      if d[0].0 != key {
        PutMembers(d[1..], key, v);
      }
    }
  }

  lemma PutIsWellFormed(d: Dict, key: string, v: Value)
    requires WellFormedDict(d) && WellFormed(v)
    ensures WellFormedDict(Put(d, key, v))
  {
    PutIsDict(d, key, v);
    PutMembers(d, key, v);
    var r := Put(d, key, v);
    forall i | 0 <= i < |r| ensures WellFormed(r[i].1) {
      assert r[i] in r;
    }
  }

  lemma PopIsWellFormed(d: Dict, key: string)
    requires WellFormedDict(d)
    ensures WellFormedDict(Pop(d, key))
  {
    PopIsDict(d, key);
    var r := Pop(d, key);
    forall i | 0 <= i < |r| ensures WellFormed(r[i].1) {
      assert r[i] in r;
    }
  }

  lemma {:induction false} GetIsWellFormed(d: Dict, key: string)
    requires WellFormedDict(d)
    ensures Get(d, key).Some? ==> WellFormed(Get(d, key).value)
  {
    if d != [] && d[0].0 != key {
      assert WellFormedDict(d[1..]);
      GetIsWellFormed(d[1..], key);
    }
  }

  /** Putting a value where it already stands changes nothing. */
  lemma {:induction false} PutSame(d: Dict, key: string)
    requires Has(d, key)
    ensures Put(d, key, Get(d, key).value) == d
  {
    if d[0].0 != key {
      PutSame(d[1..], key);
    }
  }

  /** The later of two values stands. */
  lemma {:induction false} PutTwice(d: Dict, key: string, v: Value, w: Value)
    ensures Put(Put(d, key, v), key, w) == Put(d, key, w)
  {
    if d != [] {
      if d[0].0 == key {
        assert Put(d, key, v)[1..] == d[1..];
      } else {
        assert Put(d, key, v)[1..] == Put(d[1..], key, v);
        PutTwice(d[1..], key, v, w);
      }
    }
  }
}
