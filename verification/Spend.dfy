/** The spend report: ledger entries folded into totals and three cuts (domain/spend_calc.py,
    domain/spend.py). Money is exact; rounding is one function, applied once. */
module Spend {
  import opened Common

  // ---- Amounts ------------------------------------------------------------------------

  datatype InOut = InOut(input: int, output: int)
  datatype Cache = Cache(read: int, creation: int)

  datatype Tokens = Tokens(io: InOut, cache: Cache, total: int)

  const NO_TOKENS: Tokens := Tokens(InOut(0, 0), Cache(0, 0), 0)

  /** `_Tokens.add`. */
  function AddTokens(a: Tokens, b: Tokens): Tokens {
    Tokens(InOut(a.io.input + b.io.input, a.io.output + b.io.output),
           Cache(a.cache.read + b.cache.read, a.cache.creation + b.cache.creation),
           a.total + b.total)
  }

  /** What one record adds to one bucket. */
  datatype Amount = Amount(cost: real, entries: int)

  const ZERO: Amount := Amount(0.0, 0)

  function Add(a: Amount, b: Amount): Amount { Amount(a.cost + b.cost, a.entries + b.entries) }

  /** Everything the items contribute, added up. */
  function Fold<T, A>(items: seq<T>, share: T -> A, add: (A, A) -> A, zero: A): A {
    if items == [] then zero else add(Fold(items[..|items| - 1], share, add, zero), share(items[|items| - 1]))
  }

  function Sum<T>(items: seq<T>, share: T -> Amount): Amount { Fold(items, share, Add, ZERO) }

  function SumTokens<T>(items: seq<T>, share: T -> Tokens): Tokens { Fold(items, share, AddTokens, NO_TOKENS) }

  lemma FoldAppend<T, A>(items: seq<T>, x: T, share: T -> A, add: (A, A) -> A, zero: A)
    ensures Fold(items + [x], share, add, zero) == add(Fold(items, share, add, zero), share(x))
  {
    assert (items + [x])[..|items|] == items;
  }

  /** Two additions can be swapped. */
  ghost predicate Commutes<A(!new)>(add: (A, A) -> A) {
    forall a, b, c :: add(add(a, b), c) == add(add(a, c), b)
  }

  lemma {:induction false} FoldWithout<T, A(!new)>(items: seq<T>, i: nat, share: T -> A, add: (A, A) -> A, zero: A)
    requires i < |items| && Commutes(add)
    ensures Fold(items, share, add, zero) == add(Fold(items[..i] + items[i + 1..], share, add, zero), share(items[i]))
  {
    var n := |items| - 1;
    if i < n {
      FoldWithout(items[..n], i, share, add, zero);
      assert items[..n][..i] == items[..i] && items[..n][i + 1..] == items[i + 1..n];
      assert items[..i] + items[i + 1..] == (items[..i] + items[i + 1..n]) + [items[n]];
      FoldAppend(items[..i] + items[i + 1..n], items[n], share, add, zero);
    } else {
      assert items[..i] + items[i + 1..] == items[..n];
    }
  }

  /** A sum does not depend on the order of its terms. */
  lemma {:induction false} FoldPermuted<T, A(!new)>(a: seq<T>, b: seq<T>, share: T -> A, add: (A, A) -> A, zero: A)
    requires multiset(a) == multiset(b) && Commutes(add)
    ensures Fold(a, share, add, zero) == Fold(b, share, add, zero)
  {
    if a == [] {
      assert |multiset(b)| == 0;
    } else {
      var n := |a| - 1;
      assert a == a[..n] + [a[n]];
      assert a[n] in multiset(b);
      var i :| 0 <= i < |b| && b[i] == a[n];
      var rest := b[..i] + b[i + 1..];
      assert b == b[..i] + [b[i]] + b[i + 1..];
      assert multiset(rest) == multiset(b) - multiset{b[i]};
      FoldPermuted(a[..n], rest, share, add, zero);
      FoldWithout(b, i, share, add, zero);
    }
  }

  lemma SumAppend<T>(items: seq<T>, x: T, share: T -> Amount)
    ensures Sum(items + [x], share) == Add(Sum(items, share), share(x))
  {
    FoldAppend(items, x, share, Add, ZERO);
  }

  lemma SumTokensAppend<T>(items: seq<T>, x: T, share: T -> Tokens)
    ensures SumTokens(items + [x], share) == AddTokens(SumTokens(items, share), share(x))
  {
    FoldAppend(items, x, share, AddTokens, NO_TOKENS);
  }

  // ---- Rounding -----------------------------------------------------------------------

  /** 10 to the number of published decimal places. */
  const SCALE: real := 100000000.0

  /** `round`: to the nearest, and to the even one of two. */
  function HalfEven(x: real): int {
    var down := x.Floor;
    var rest := x - down as real;
    if rest < 0.5 || (rest == 0.5 && down % 2 == 0) then down else down + 1
  }

  function Round8(x: real): real { HalfEven(x * SCALE) as real / SCALE }

  function Distance(a: real, b: real): real { if a < b then b - a else a - b }

  /** So many halves of a published unit. */
  function Halves(n: nat): real { n as real * 0.000000005 }

  /** Rounding moves a figure by at most half a unit. */
  lemma RoundingIsNear(x: real)
    ensures Distance(Round8(x), x) <= Halves(1)
  {
    var n := HalfEven(x * SCALE) as real;
    assert -0.5 <= n - x * SCALE <= 0.5;
    assert n / SCALE - x == (n - x * SCALE) / SCALE;
  }

  // ---- Entries ------------------------------------------------------------------------

  /** One `by_model` value. */
  datatype ModelCost = ModelCost(cost: real, io: InOut, cache: Cache)

  datatype Entry = Entry(
    level: string,
    ids: seq<string>,
    model: Option<string>,
    cost: real,
    tokens: Tokens,
    byModel: seq<(string, ModelCost)>)

  datatype Contribution = Contribution(model: string, cost: real, tokens: Tokens)

  /** `_counts_of`. */
  function CountsOf(m: ModelCost): Tokens {
    Tokens(m.io, m.cache, m.io.input + m.io.output + m.cache.read + m.cache.creation)
  }

  function FromModel(x: (string, ModelCost)): Contribution { Contribution(x.0, x.1.cost, CountsOf(x.1)) }

  /** `_model_contributions`. */
  function Contributions(e: Entry): seq<Contribution> {
    if e.byModel != [] then seq(|e.byModel|, i requires 0 <= i < |e.byModel| => FromModel(e.byModel[i]))
    else if e.model.Some? && e.model.value != "" then [Contribution(e.model.value, e.cost, e.tokens)]
    else []
  }

  function ModelsOf(contributions: seq<Contribution>): set<string> { set c | c in contributions :: c.model }

  // ---- What each cut is ---------------------------------------------------------------

  function WholeShare(): Entry -> Amount { (e: Entry) => Amount(e.cost, 1) }

  function WholeTokens(): Entry -> Tokens { (e: Entry) => e.tokens }

  /** `full-to-each-id`: the whole cost to every distinct id. */
  function TicketShare(t: string): Entry -> Amount { (e: Entry) => if t in e.ids then Amount(e.cost, 1) else ZERO }

  function LevelShare(l: string): Entry -> Amount { (e: Entry) => if e.level == l then Amount(e.cost, 1) else ZERO }

  function OfModel(m: string): Contribution -> Amount {
    (c: Contribution) => if c.model == m then Amount(c.cost, 0) else ZERO
  }

  function TokensOfModel(m: string): Contribution -> Tokens {
    (c: Contribution) => if c.model == m then c.tokens else NO_TOKENS
  }

  function ModelShare(m: string): Entry -> Amount { (e: Entry) => Sum(Contributions(e), OfModel(m)) }

  function ModelTokens(m: string): Entry -> Tokens { (e: Entry) => SumTokens(Contributions(e), TokensOfModel(m)) }

  ghost function Tickets(entries: seq<Entry>): set<string> { set e, t | e in entries && t in e.ids :: t }

  ghost function Levels(entries: seq<Entry>): set<string> { set e | e in entries :: e.level }

  ghost function Models(entries: seq<Entry>): set<string> {
    set e, c | e in entries && c in Contributions(e) :: c.model
  }

  /** The models seen on a ticket's entries. */
  ghost function ModelsSeen(entries: seq<Entry>, t: string): set<string> {
    set e, c | e in entries && t in e.ids && c in Contributions(e) :: c.model
  }

  /** One published row; the fields a cut does not publish are empty. */
  datatype Row = Row(key: string, cost: real, entries: int, tokens: Tokens, models: seq<string>)

  function RowOf(key: string, amount: Amount, tokens: Tokens, models: seq<string>): Row {
    Row(key, Round8(amount.cost), amount.entries, tokens, models)
  }

  ghost function TicketRow(entries: seq<Entry>, t: string): Row {
    RowOf(t, Sum(entries, TicketShare(t)), NO_TOKENS, SortedSet(ModelsSeen(entries, t)))
  }

  ghost function ModelRow(entries: seq<Entry>, m: string): Row {
    RowOf(m, Sum(entries, ModelShare(m)), SumTokens(entries, ModelTokens(m)), [])
  }

  ghost function LevelRow(entries: seq<Entry>, l: string): Row {
    RowOf(l, Sum(entries, LevelShare(l)), NO_TOKENS, [])
  }

  /** The order of `_dearest_first`. */
  predicate Before(a: Row, b: Row) { a.cost > b.cost || (a.cost == b.cost && StrLess(a.key, b.key)) }

  ghost predicate IsDearestFirst(rows: seq<Row>) { forall i, j :: 0 <= i < j < |rows| ==> Before(rows[i], rows[j]) }

  /** One row for each key and no other, dearest first. */
  ghost predicate IsCut(rows: seq<Row>, keys: set<string>, row: string -> Row) {
    IsDearestFirst(rows) && forall r :: r in rows <==> exists k :: k in keys && r == row(k)
  }

  datatype Report = Report(totals: Row, byTicket: seq<Row>, byModel: seq<Row>, byLevel: seq<Row>)

  ghost predicate IsReportOf(r: Report, entries: seq<Entry>) {
    && r.totals == RowOf("", Sum(entries, WholeShare()), SumTokens(entries, WholeTokens()), [])
    && IsCut(r.byTicket, Tickets(entries), (t: string) => TicketRow(entries, t))
    && IsCut(r.byModel, Models(entries), (m: string) => ModelRow(entries, m))
    && IsCut(r.byLevel, Levels(entries), (l: string) => LevelRow(entries, l))
  }

  // ---- A cut is unique ----------------------------------------------------------------

  lemma BeforeIsStrict(a: Row, b: Row)
    ensures !(Before(a, b) && Before(b, a))
  {
    if a.cost == b.cost && StrLess(a.key, b.key) && StrLess(b.key, a.key) {
      StrLessTransitive(a.key, b.key, a.key);
      StrLessIrreflexive(a.key);
    }
  }

  lemma {:induction false} CutIsUnique(a: seq<Row>, b: seq<Row>)
    requires IsDearestFirst(a) && IsDearestFirst(b) && forall r :: r in a <==> r in b
    ensures a == b
  {
    assert a != [] ==> a[0] in b;
    assert b != [] ==> b[0] in a;
    if a != [] {
      var i :| 0 <= i < |b| && b[i] == a[0];
      var j :| 0 <= j < |a| && a[j] == b[0];
      BeforeIsStrict(a[0], b[0]);
      RestOfCut(a);
      RestOfCut(b);
      CutIsUnique(a[1..], b[1..]);
      assert a == [a[0]] + a[1..] && b == [b[0]] + b[1..];
    }
  }

  lemma RestOfCut(a: seq<Row>)
    requires IsDearestFirst(a) && a != []
    ensures IsDearestFirst(a[1..]) && forall r :: r in a[1..] <==> r in a && r != a[0]
  {
    BeforeIsStrict(a[0], a[0]);
    assert a == [a[0]] + a[1..];
    forall i, j | 0 <= i < j < |a[1..]| ensures Before(a[1..][i], a[1..][j]) {
      assert Before(a[i + 1], a[j + 1]);
    }
  }
}
