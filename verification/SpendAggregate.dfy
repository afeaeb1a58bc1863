/** The aggregation itself: one pass into buckets, each cut then priced and sorted
    (domain/spend_calc.py, `aggregate`). */
module SpendAggregate {
  import opened Common
  import opened Spend

  /** `_Bucket`: the costs are kept apart and summed once. */
  datatype Bucket = Bucket(costs: seq<real>, entries: int, models: set<string>, tokens: Tokens)

  const EMPTY: Bucket := Bucket([], 0, {}, NO_TOKENS)

  type Buckets = map<string, Bucket>

  /** `math.fsum`: the exact sum. */
  function SumOf(costs: seq<real>): real {
    if costs == [] then 0.0 else SumOf(costs[..|costs| - 1]) + costs[|costs| - 1]
  }

  lemma SumOfAppend(costs: seq<real>, x: real)
    ensures SumOf(costs + [x]) == SumOf(costs) + x
  {
    assert (costs + [x])[..|costs|] == costs;
  }

  function AmountOf(b: Bucket): Amount { Amount(SumOf(b.costs), b.entries) }

  /** `setdefault`. */
  function At(m: Buckets, key: string): Bucket { if key in m then m[key] else EMPTY }

  function Charge(b: Bucket, cost: real, entries: int, models: set<string>): Bucket {
    b.(costs := b.costs + [cost], entries := b.entries + entries, models := b.models + models)
  }

  function WithTokens(b: Bucket, tokens: Tokens): Bucket { b.(tokens := AddTokens(b.tokens, tokens)) }

  lemma ChargeAdds(b: Bucket, cost: real, entries: int, models: set<string>)
    ensures AmountOf(Charge(b, cost, entries, models)) == Add(AmountOf(b), Amount(cost, entries))
  {
    SumOfAppend(b.costs, cost);
  }

  /** The bucket of one ticket after one entry. */
  function ChargedTicket(b: Bucket, t: string, e: Entry, models: set<string>): Bucket {
    if t in e.ids then Charge(b, e.cost, 1, models) else b
  }

  /** The ticket loop: once for each distinct id. */
  method ChargeTickets(buckets: Buckets, e: Entry, models: set<string>) returns (m: Buckets)
    ensures m.Keys == buckets.Keys + set t | t in e.ids
    ensures forall t: string :: At(m, t) == ChargedTicket(At(buckets, t), t, e, models)
  {
    m := buckets;
    var ids := Dedup(e.ids);
    for i := 0 to |ids|
      invariant m.Keys == buckets.Keys + set t | t in ids[..i]
      invariant forall t: string ::
                  At(m, t) == if t in ids[..i] then Charge(At(buckets, t), e.cost, 1, models) else At(buckets, t)
    {
      assert ids[..i + 1] == ids[..i] + [ids[i]];
      assert ids[i] !in ids[..i];
      m := m[ids[i] := Charge(At(m, ids[i]), e.cost, 1, models)];
    }
    assert ids[..|ids|] == ids;
  }

  /** The bucket of one model after some contributions. */
  function ChargedModel(b: Bucket, x: string, contributions: seq<Contribution>): Bucket {
    if contributions == [] then b
    else
      var before := ChargedModel(b, x, contributions[..|contributions| - 1]);
      var c := contributions[|contributions| - 1];
      if c.model == x then WithTokens(Charge(before, c.cost, 0, {}), c.tokens) else before
  }

  lemma ChargedModelStep(b: Bucket, x: string, contributions: seq<Contribution>, c: Contribution)
    ensures ChargedModel(b, x, contributions + [c]) ==
      if c.model == x then WithTokens(Charge(ChargedModel(b, x, contributions), c.cost, 0, {}), c.tokens)
      else ChargedModel(b, x, contributions)
  {
    assert (contributions + [c])[..|contributions|] == contributions;
  }

  /** The model loop: every contribution, under its own model. */
  method ChargeModels(buckets: Buckets, contributions: seq<Contribution>) returns (m: Buckets)
    ensures m.Keys == buckets.Keys + ModelsOf(contributions)
    ensures forall x: string :: At(m, x) == ChargedModel(At(buckets, x), x, contributions)
  {
    m := buckets;
    for i := 0 to |contributions|
      invariant m.Keys == buckets.Keys + ModelsOf(contributions[..i])
      invariant forall x: string :: At(m, x) == ChargedModel(At(buckets, x), x, contributions[..i])
    {
      var c := contributions[i];
      assert contributions[..i + 1] == contributions[..i] + [c];
      forall x: string ensures ChargedModel(At(buckets, x), x, contributions[..i + 1]) ==
          if c.model == x then WithTokens(Charge(At(m, x), c.cost, 0, {}), c.tokens) else At(m, x)
      {
        ChargedModelStep(At(buckets, x), x, contributions[..i], c);
      }
      m := m[c.model := WithTokens(Charge(At(m, c.model), c.cost, 0, {}), c.tokens)];
    }
    assert contributions[..|contributions|] == contributions;
  }

  function ChargedLevel(b: Bucket, l: string, e: Entry): Bucket {
    if e.level == l then Charge(b, e.cost, 1, {}) else b
  }

  method ChargeLevel(buckets: Buckets, e: Entry) returns (m: Buckets)
    ensures m.Keys == buckets.Keys + {e.level}
    ensures forall l: string :: At(m, l) == ChargedLevel(At(buckets, l), l, e)
  {
    m := buckets[e.level := Charge(At(buckets, e.level), e.cost, 1, {})];
  }

  // ---- Rows ---------------------------------------------------------------------------

  /** `sorted(models)`. */
  method Sorted(models: set<string>) returns (r: seq<string>)
    ensures r == SortedSet(models)
  {
    r := [];
    var rest := models;
    while rest != {}
      invariant StrictlySorted(r) && rest <= models && forall x :: x in r <==> x in models && x !in rest
      decreases |rest|
    {
      var x :| x in rest;
      InsertSortedIsSorted(x, r);
      r := InsertSorted(x, r);
      rest := rest - {x};
    }
    SortedUnique(r, SortedSet(models));
  }

  function InsertRow(row: Row, rows: seq<Row>): (r: seq<Row>)
    ensures forall x :: x in r <==> x == row || x in rows
  {
    if rows == [] || Before(row, rows[0]) then [row] + rows
    else
      assert forall x :: x in rows <==> x == rows[0] || x in rows[1..];
      [rows[0]] + InsertRow(row, rows[1..])
  }

  lemma BeforeIsTransitive(a: Row, b: Row, c: Row)
    requires Before(a, b) && Before(b, c)
    ensures Before(a, c)
  {
    if a.cost == b.cost && b.cost == c.cost {
      StrLessTransitive(a.key, b.key, c.key);
    }
  }

  lemma {:induction false} InsertRowSorts(row: Row, rows: seq<Row>)
    requires IsDearestFirst(rows) && forall r :: r in rows ==> r.key != row.key
    ensures IsDearestFirst(InsertRow(row, rows))
  {
    if rows == [] || Before(row, rows[0]) {
      forall j | 0 <= j < |rows| ensures Before(row, rows[j]) {
        if j > 0 { BeforeIsTransitive(row, rows[0], rows[j]); }
      }
    } else {
      StrLessTotal(row.key, rows[0].key);
      assert rows[0] in rows && Before(rows[0], row);
      RestOfCut(rows);
      InsertRowSorts(row, rows[1..]);
      FirstStays(rows[0], InsertRow(row, rows[1..]));
    }
  }

  lemma FirstStays(first: Row, rows: seq<Row>)
    requires IsDearestFirst(rows) && forall r :: r in rows ==> Before(first, r)
    ensures IsDearestFirst([first] + rows)
  {
  }

  ghost function PricedRow(buckets: Buckets, key: string): Row {
    RowOf(key, AmountOf(At(buckets, key)), At(buckets, key).tokens, SortedSet(At(buckets, key).models))
  }

  /** `_dearest_first`, and the rows built from it. */
  method DearestFirst(buckets: Buckets) returns (rows: seq<Row>)
    ensures IsCut(rows, buckets.Keys, (k: string) => PricedRow(buckets, k))
  {
    rows := [];
    var rest := buckets.Keys;
    while rest != {}
      invariant rest <= buckets.Keys && IsDearestFirst(rows)
      invariant forall r :: r in rows <==> exists k :: k in buckets.Keys && k !in rest && r == PricedRow(buckets, k)
      decreases |rest|
    {
      var key :| key in rest;
      var models := Sorted(buckets[key].models);
      var row := RowOf(key, AmountOf(buckets[key]), buckets[key].tokens, models);
      InsertRowSorts(row, rows);
      rows := InsertRow(row, rows);
      rest := rest - {key};
    }
  }

  /** `aggregate`. */
  method Aggregate(entries: seq<Entry>) returns (report: Report)
    ensures IsReportOf(report, entries)
  {
    var totals := EMPTY;
    var byTicket: Buckets := map[];
    var byModel: Buckets := map[];
    var byLevel: Buckets := map[];
    for i := 0 to |entries|
      invariant AmountOf(totals) == Sum(entries[..i], WholeShare())
      invariant totals.tokens == SumTokens(entries[..i], WholeTokens())
      invariant HoldsTickets(byTicket, entries[..i])
      invariant HoldsModels(byModel, entries[..i])
      invariant HoldsLevels(byLevel, entries[..i])
    {
      var e := entries[i];
      var contributions := Contributions(e);
      assert entries[..i + 1] == entries[..i] + [e];
      ChargeAdds(totals, e.cost, 1, {});
      SumAppend(entries[..i], e, WholeShare());
      SumTokensAppend(entries[..i], e, WholeTokens());
      totals := WithTokens(Charge(totals, e.cost, 1, {}), e.tokens);
      ghost var tickets, models, levels := byTicket, byModel, byLevel;
      byTicket := ChargeTickets(byTicket, e, ModelsOf(contributions));
      byModel := ChargeModels(byModel, contributions);
      byLevel := ChargeLevel(byLevel, e);
      TicketsExtend(tickets, byTicket, entries[..i], e);
      ModelsExtend(models, byModel, entries[..i], e);
      LevelsExtend(levels, byLevel, entries[..i], e);
    }
    assert entries[..|entries|] == entries;
    var tickets := DearestFirst(byTicket);
    var models := DearestFirst(byModel);
    var levels := DearestFirst(byLevel);
    report := Report(RowOf("", AmountOf(totals), totals.tokens, []), tickets, models, levels);
    CutsAreReport(entries, byTicket, byModel, byLevel, report);
  }

  // ---- What the buckets hold ----------------------------------------------------------

  ghost predicate IsTicketBucket(b: Bucket, t: string, entries: seq<Entry>) {
    AmountOf(b) == Sum(entries, TicketShare(t)) && b.models == ModelsSeen(entries, t) && b.tokens == NO_TOKENS
  }

  ghost predicate IsModelBucket(b: Bucket, x: string, entries: seq<Entry>) {
    && AmountOf(b) == Sum(entries, ModelShare(x)) && b.models == {}
    && b.tokens == SumTokens(entries, ModelTokens(x))
  }

  ghost predicate IsLevelBucket(b: Bucket, l: string, entries: seq<Entry>) {
    AmountOf(b) == Sum(entries, LevelShare(l)) && b.models == {} && b.tokens == NO_TOKENS
  }

  ghost predicate HoldsTickets(m: Buckets, entries: seq<Entry>) {
    m.Keys == Tickets(entries) && forall t: string :: IsTicketBucket(At(m, t), t, entries)
  }

  ghost predicate HoldsModels(m: Buckets, entries: seq<Entry>) {
    m.Keys == Models(entries) && forall x: string :: IsModelBucket(At(m, x), x, entries)
  }

  ghost predicate HoldsLevels(m: Buckets, entries: seq<Entry>) {
    m.Keys == Levels(entries) && forall l: string :: IsLevelBucket(At(m, l), l, entries)
  }

  lemma AddZero(a: Amount)
    ensures Add(a, ZERO) == a
  {
  }

  lemma TicketBucketExtends(b: Bucket, t: string, entries: seq<Entry>, e: Entry)
    requires IsTicketBucket(b, t, entries)
    ensures IsTicketBucket(ChargedTicket(b, t, e, ModelsOf(Contributions(e))), t, entries + [e])
  {
    SumAppend(entries, e, TicketShare(t));
    ChargeAdds(b, e.cost, 1, ModelsOf(Contributions(e)));
    AddZero(AmountOf(b));
    ModelsSeenExtend(entries, e, t);
  }

  lemma ModelsSeenExtend(entries: seq<Entry>, e: Entry, t: string)
    ensures ModelsSeen(entries + [e], t)
            == ModelsSeen(entries, t) + if t in e.ids then ModelsOf(Contributions(e)) else {}
  {
    assert forall x :: x in entries + [e] <==> x in entries || x == e;
  }

  lemma TicketsExtend(before: Buckets, after: Buckets, entries: seq<Entry>, e: Entry)
    requires HoldsTickets(before, entries)
    requires after.Keys == before.Keys + set t | t in e.ids
    requires forall t: string :: At(after, t) == ChargedTicket(At(before, t), t, e, ModelsOf(Contributions(e)))
    ensures HoldsTickets(after, entries + [e])
  {
    assert forall x :: x in entries + [e] <==> x in entries || x == e;
    forall t: string ensures IsTicketBucket(At(after, t), t, entries + [e]) {
      TicketBucketExtends(At(before, t), t, entries, e);
    }
  }

  lemma {:induction false} ChargedModelAdds(b: Bucket, x: string, contributions: seq<Contribution>)
    ensures AmountOf(ChargedModel(b, x, contributions)) == Add(AmountOf(b), Sum(contributions, OfModel(x)))
    ensures ChargedModel(b, x, contributions).tokens
            == AddTokens(b.tokens, SumTokens(contributions, TokensOfModel(x)))
    ensures ChargedModel(b, x, contributions).models == b.models
  {
    if contributions != [] {
      var n := |contributions| - 1;
      var c := contributions[n];
      ChargedModelAdds(b, x, contributions[..n]);
      ChargeAdds(ChargedModel(b, x, contributions[..n]), c.cost, 0, {});
    }
  }

  lemma ModelBucketExtends(b: Bucket, x: string, entries: seq<Entry>, e: Entry)
    requires IsModelBucket(b, x, entries)
    ensures IsModelBucket(ChargedModel(b, x, Contributions(e)), x, entries + [e])
  {
    SumAppend(entries, e, ModelShare(x));
    SumTokensAppend(entries, e, ModelTokens(x));
    ChargedModelAdds(b, x, Contributions(e));
  }

  lemma ModelsExtend(before: Buckets, after: Buckets, entries: seq<Entry>, e: Entry)
    requires HoldsModels(before, entries)
    requires after.Keys == before.Keys + ModelsOf(Contributions(e))
    requires forall x: string :: At(after, x) == ChargedModel(At(before, x), x, Contributions(e))
    ensures HoldsModels(after, entries + [e])
  {
    assert forall x :: x in entries + [e] <==> x in entries || x == e;
    forall x: string ensures IsModelBucket(At(after, x), x, entries + [e]) {
      ModelBucketExtends(At(before, x), x, entries, e);
    }
  }

  lemma LevelBucketExtends(b: Bucket, l: string, entries: seq<Entry>, e: Entry)
    requires IsLevelBucket(b, l, entries)
    ensures IsLevelBucket(ChargedLevel(b, l, e), l, entries + [e])
  {
    SumAppend(entries, e, LevelShare(l));
    ChargeAdds(b, e.cost, 1, {});
    AddZero(AmountOf(b));
  }

  lemma LevelsExtend(before: Buckets, after: Buckets, entries: seq<Entry>, e: Entry)
    requires HoldsLevels(before, entries)
    requires after.Keys == before.Keys + {e.level}
    requires forall l: string :: At(after, l) == ChargedLevel(At(before, l), l, e)
    ensures HoldsLevels(after, entries + [e])
  {
    assert forall x :: x in entries + [e] <==> x in entries || x == e;
    forall l: string ensures IsLevelBucket(At(after, l), l, entries + [e]) {
      LevelBucketExtends(At(before, l), l, entries, e);
    }
  }

  lemma CutsAreReport(entries: seq<Entry>, byTicket: Buckets, byModel: Buckets, byLevel: Buckets, report: Report)
    requires HoldsTickets(byTicket, entries) && HoldsModels(byModel, entries) && HoldsLevels(byLevel, entries)
    requires report.totals == RowOf("", Sum(entries, WholeShare()), SumTokens(entries, WholeTokens()), [])
    requires IsCut(report.byTicket, byTicket.Keys, (k: string) => PricedRow(byTicket, k))
    requires IsCut(report.byModel, byModel.Keys, (k: string) => PricedRow(byModel, k))
    requires IsCut(report.byLevel, byLevel.Keys, (k: string) => PricedRow(byLevel, k))
    ensures IsReportOf(report, entries)
  {
    forall t: string ensures PricedRow(byTicket, t) == TicketRow(entries, t) {
      assert IsTicketBucket(At(byTicket, t), t, entries);
    }
    NoModelsSorted();
    forall x: string ensures PricedRow(byModel, x) == ModelRow(entries, x) {
      assert IsModelBucket(At(byModel, x), x, entries);
    }
    forall l: string ensures PricedRow(byLevel, l) == LevelRow(entries, l) {
      assert IsLevelBucket(At(byLevel, l), l, entries);
    }
  }

  lemma NoModelsSorted()
    ensures SortedSet({}) == []
  {
  }
}
