/** What each figure of the report is, said by picking records and adding them up. */
module SpendRows {
  import opened Common
  import opened Spend
  import opened SpendLaws

  // ---- Picking and adding -------------------------------------------------------------

  /** The whole cost of each record that names the ticket, and how many those are. */
  function TicketCost(entries: seq<Entry>, t: string): real {
    if entries == [] then 0.0
    else
      var last := entries[|entries| - 1];
      TicketCost(entries[..|entries| - 1], t) + if t in last.ids then last.cost else 0.0
  }

  function TicketCount(entries: seq<Entry>, t: string): int {
    if entries == [] then 0
    else TicketCount(entries[..|entries| - 1], t) + if t in entries[|entries| - 1].ids then 1 else 0
  }

  /** The same of the records of one level. */
  function LevelCost(entries: seq<Entry>, l: string): real {
    if entries == [] then 0.0
    else
      var last := entries[|entries| - 1];
      LevelCost(entries[..|entries| - 1], l) + if last.level == l then last.cost else 0.0
  }

  function LevelCount(entries: seq<Entry>, l: string): int {
    if entries == [] then 0
    else LevelCount(entries[..|entries| - 1], l) + if entries[|entries| - 1].level == l then 1 else 0
  }

  function TotalCost(entries: seq<Entry>): real {
    if entries == [] then 0.0 else TotalCost(entries[..|entries| - 1]) + entries[|entries| - 1].cost
  }

  /** What the contributions under one model's name add up to, in cost. */
  function CostUnder(items: seq<Contribution>, m: string): real {
    if items == [] then 0.0
    else
      var last := items[|items| - 1];
      CostUnder(items[..|items| - 1], m) + if last.model == m then last.cost else 0.0
  }

  function ModelCostOf(entries: seq<Entry>, m: string): real {
    if entries == [] then 0.0
    else ModelCostOf(entries[..|entries| - 1], m) + CostUnder(Contributions(entries[|entries| - 1]), m)
  }

  function CountsOfAll(entries: seq<Entry>): seq<Tokens> {
    seq(|entries|, i requires 0 <= i < |entries| => entries[i].tokens)
  }

  /** One of the five token figures. */
  datatype Figure = Input | Output | CacheRead | CacheCreation | Total

  function FigureOf(t: Tokens, f: Figure): int {
    match f
    case Input => t.io.input
    case Output => t.io.output
    case CacheRead => t.cache.read
    case CacheCreation => t.cache.creation
    case Total => t.total
  }

  function Added(counts: seq<Tokens>, f: Figure): int {
    if counts == [] then 0 else Added(counts[..|counts| - 1], f) + FigureOf(counts[|counts| - 1], f)
  }

  /** And in one token figure. */
  function AddedUnder(items: seq<Contribution>, m: string, f: Figure): int {
    if items == [] then 0
    else
      var last := items[|items| - 1];
      AddedUnder(items[..|items| - 1], m, f) + if last.model == m then FigureOf(last.tokens, f) else 0
  }

  function ModelFigure(entries: seq<Entry>, m: string, f: Figure): int {
    if entries == [] then 0
    else ModelFigure(entries[..|entries| - 1], m, f) + AddedUnder(Contributions(entries[|entries| - 1]), m, f)
  }

  // ---- The sums are those -------------------------------------------------------------

  lemma AddedAppend(counts: seq<Tokens>, t: Tokens, f: Figure)
    ensures Added(counts + [t], f) == Added(counts, f) + FigureOf(t, f)
  {
    assert (counts + [t])[..|counts|] == counts;
  }

  lemma FiguresAdd(a: Tokens, b: Tokens, f: Figure)
    ensures FigureOf(AddTokens(a, b), f) == FigureOf(a, f) + FigureOf(b, f)
  {
  }

  lemma {:induction false} WholeIs(entries: seq<Entry>)
    ensures Sum(entries, WholeShare()) == Amount(TotalCost(entries), |entries|)
    ensures forall f :: FigureOf(SumTokens(entries, WholeTokens()), f) == Added(CountsOfAll(entries), f)
  {
    if entries != [] {
      var n := |entries| - 1;
      WholeIs(entries[..n]);
      assert CountsOfAll(entries) == CountsOfAll(entries[..n]) + [entries[n].tokens];
      forall f ensures FigureOf(SumTokens(entries, WholeTokens()), f) == Added(CountsOfAll(entries), f) {
        AddedAppend(CountsOfAll(entries[..n]), entries[n].tokens, f);
        FiguresAdd(SumTokens(entries[..n], WholeTokens()), entries[n].tokens, f);
      }
    }
  }

  lemma {:induction false} TicketIs(entries: seq<Entry>, t: string)
    ensures Sum(entries, TicketShare(t)) == Amount(TicketCost(entries, t), TicketCount(entries, t))
  {
    if entries != [] {
      var before, last := entries[..|entries| - 1], entries[|entries| - 1];
      TicketIs(before, t);
      OneTicketAdds(TicketCost(before, t), TicketCount(before, t), last, t);
      LastTicketAdds(entries, t, before, last);
    }
  }

  lemma LastTicketAdds(entries: seq<Entry>, t: string, before: seq<Entry>, last: Entry)
    requires entries != [] && before == entries[..|entries| - 1] && last == entries[|entries| - 1]
    ensures TicketCost(entries, t) == TicketCost(before, t) + if t in last.ids then last.cost else 0.0
    ensures TicketCount(entries, t) == TicketCount(before, t) + if t in last.ids then 1 else 0
    ensures Sum(entries, TicketShare(t)) == Add(Sum(before, TicketShare(t)), TicketShare(t)(last))
  {
  }

  lemma OneTicketAdds(cost: real, count: int, e: Entry, t: string)
    ensures Add(Amount(cost, count), TicketShare(t)(e))
            == if t in e.ids then Amount(cost + e.cost, count + 1) else Amount(cost, count)
  {
  }

  lemma {:induction false} LevelIs(entries: seq<Entry>, l: string)
    ensures Sum(entries, LevelShare(l)) == Amount(LevelCost(entries, l), LevelCount(entries, l))
  {
    if entries != [] {
      var n := |entries| - 1;
      LevelIs(entries[..n], l);
      OneLevelAdds(LevelCost(entries[..n], l), LevelCount(entries[..n], l), entries[n], l);
    }
  }

  lemma OneLevelAdds(cost: real, count: int, e: Entry, l: string)
    ensures Add(Amount(cost, count), LevelShare(l)(e))
            == if e.level == l then Amount(cost + e.cost, count + 1) else Amount(cost, count)
  {
  }

  /** One record's contributions to a model. */
  lemma {:induction false} ShareIs(items: seq<Contribution>, m: string)
    ensures Sum(items, OfModel(m)) == Amount(CostUnder(items, m), 0)
  {
    if items != [] {
      var n := |items| - 1;
      ShareIs(items[..n], m);
      OneShareAdds(CostUnder(items[..n], m), items[n], m);
    }
  }

  lemma OneShareAdds(cost: real, c: Contribution, m: string)
    ensures Add(Amount(cost, 0), OfModel(m)(c)) == Amount(cost + if c.model == m then c.cost else 0.0, 0)
  {
  }

  lemma {:induction false} FigureShareIs(items: seq<Contribution>, m: string, f: Figure)
    ensures FigureOf(SumTokens(items, TokensOfModel(m)), f) == AddedUnder(items, m, f)
  {
    if items != [] {
      var n := |items| - 1;
      FigureShareIs(items[..n], m, f);
      FiguresAdd(SumTokens(items[..n], TokensOfModel(m)), TokensOfModel(m)(items[n]), f);
    }
  }

  lemma {:induction false} ModelIs(entries: seq<Entry>, m: string)
    ensures Sum(entries, ModelShare(m)) == Amount(ModelCostOf(entries, m), 0)
  {
    if entries != [] {
      var n := |entries| - 1;
      ModelIs(entries[..n], m);
      ShareIs(Contributions(entries[n]), m);
    }
  }

  lemma {:induction false} ModelFigureIs(entries: seq<Entry>, m: string, f: Figure)
    ensures FigureOf(SumTokens(entries, ModelTokens(m)), f) == ModelFigure(entries, m, f)
  {
    if entries != [] {
      var n := |entries| - 1;
      ModelFigureIs(entries[..n], m, f);
      FiguresAdd(SumTokens(entries[..n], ModelTokens(m)), ModelTokens(m)(entries[n]), f);
      FigureShareIs(Contributions(entries[n]), m, f);
    }
  }

  // ---- The report ---------------------------------------------------------------------

  /** Dearest first, and by key where the published costs are equal. */
  ghost predicate FallsInCost(rows: seq<Row>) {
    forall i, j :: 0 <= i < j < |rows| ==>
      rows[i].cost >= rows[j].cost && (rows[i].cost == rows[j].cost ==> StrLess(rows[i].key, rows[j].key))
  }

  lemma CutFalls(rows: seq<Row>, keys: set<string>, row: string -> Row)
    requires IsCut(rows, keys, row)
    ensures FallsInCost(rows)
  {
    forall i, j | 0 <= i < j < |rows|
      ensures rows[i].cost >= rows[j].cost && (rows[i].cost == rows[j].cost ==> StrLess(rows[i].key, rows[j].key))
    {
      assert Before(rows[i], rows[j]);
    }
  }

  ghost predicate HasRow(rows: seq<Row>, key: string) { exists i :: 0 <= i < |rows| && rows[i].key == key }

  lemma CutHasRow(rows: seq<Row>, keys: set<string>, row: string -> Row, key: string)
    requires IsCut(rows, keys, row) && key in keys && row(key).key == key
    ensures HasRow(rows, key)
  {
    assert row(key) in rows;
    var i :| 0 <= i < |rows| && rows[i] == row(key);
  }

  /** The totals: every record once, in cost, in count and in each token figure. */
  lemma TotalsAre(r: Report, entries: seq<Entry>)
    requires IsReportOf(r, entries)
    ensures r.totals.cost == Round8(TotalCost(entries)) && r.totals.entries == |entries|
    ensures forall f :: FigureOf(r.totals.tokens, f) == Added(CountsOfAll(entries), f)
  {
    WholeIs(entries);
  }

  /** The ticket cut: the whole cost of every record that names a ticket, however many tickets
      it names and however often; with all models seen on them. */
  lemma TicketRowsAre(r: Report, entries: seq<Entry>)
    requires IsReportOf(r, entries)
    ensures FallsInCost(r.byTicket)
    ensures forall e, t :: e in entries && t in e.ids ==> HasRow(r.byTicket, t)
    ensures forall row :: row in r.byTicket ==>
              && (exists e :: e in entries && row.key in e.ids)
              && row.cost == Round8(TicketCost(entries, row.key)) && row.entries == TicketCount(entries, row.key)
              && StrictlySorted(row.models)
              && forall m :: m in row.models <==>
                   exists e, c :: e in entries && row.key in e.ids && c in Contributions(e) && c.model == m
  {
    var rowOf := (t: string) => TicketRow(entries, t);
    CutFalls(r.byTicket, Tickets(entries), rowOf);
    forall e, t | e in entries && t in e.ids ensures HasRow(r.byTicket, t) {
      CutHasRow(r.byTicket, Tickets(entries), rowOf, t);
    }
    forall row | row in r.byTicket
      ensures row.key in Tickets(entries) && row == TicketRow(entries, row.key)
      ensures row.cost == Round8(TicketCost(entries, row.key)) && row.entries == TicketCount(entries, row.key)
    {
      var t :| t in Tickets(entries) && row == rowOf(t);
      TicketIs(entries, t);
    }
  }

  /** The level cut. */
  lemma LevelRowsAre(r: Report, entries: seq<Entry>)
    requires IsReportOf(r, entries)
    ensures FallsInCost(r.byLevel)
    ensures forall e :: e in entries ==> HasRow(r.byLevel, e.level)
    ensures forall row :: row in r.byLevel ==>
              && (exists e :: e in entries && e.level == row.key)
              && row.cost == Round8(LevelCost(entries, row.key)) && row.entries == LevelCount(entries, row.key)
  {
    var rowOf := (l: string) => LevelRow(entries, l);
    CutFalls(r.byLevel, Levels(entries), rowOf);
    forall e | e in entries ensures HasRow(r.byLevel, e.level) {
      CutHasRow(r.byLevel, Levels(entries), rowOf, e.level);
    }
    forall row | row in r.byLevel
      ensures row.key in Levels(entries)
      ensures row.cost == Round8(LevelCost(entries, row.key)) && row.entries == LevelCount(entries, row.key)
    {
      var l :| l in Levels(entries) && row == rowOf(l);
      LevelIs(entries, l);
    }
  }

  /** The model cut: what was contributed under the model's name, in cost and in each figure. */
  lemma ModelRowsAre(r: Report, entries: seq<Entry>)
    requires IsReportOf(r, entries)
    ensures FallsInCost(r.byModel)
    ensures forall e, c :: e in entries && c in Contributions(e) ==> HasRow(r.byModel, c.model)
    ensures forall row :: row in r.byModel ==>
              && row.cost == Round8(ModelCostOf(entries, row.key))
              && forall f :: FigureOf(row.tokens, f) == ModelFigure(entries, row.key, f)
  {
    var rowOf := (m: string) => ModelRow(entries, m);
    CutFalls(r.byModel, Models(entries), rowOf);
    forall e, c | e in entries && c in Contributions(e) ensures HasRow(r.byModel, c.model) {
      CutHasRow(r.byModel, Models(entries), rowOf, c.model);
    }
    forall row | row in r.byModel
      ensures row.cost == Round8(ModelCostOf(entries, row.key))
      ensures forall f :: FigureOf(row.tokens, f) == ModelFigure(entries, row.key, f)
    {
      var m :| m in Models(entries) && row == rowOf(m);
      ModelIs(entries, m);
      forall f ensures FigureOf(row.tokens, f) == ModelFigure(entries, m, f) {
        ModelFigureIs(entries, m, f);
      }
    }
  }

  /** What one record contributes: its breakdown model by model, each with the sum of its four
      counts; without a breakdown all of it under its own model; without either nothing. */
  lemma ContributionsAre(e: Entry)
    ensures e.byModel != [] ==>
              && |Contributions(e)| == |e.byModel|
              && forall i :: 0 <= i < |e.byModel| ==>
                   var c, (name, m) := Contributions(e)[i], e.byModel[i];
                   && c.model == name && c.cost == m.cost
                   && FigureOf(c.tokens, Input) == m.io.input && FigureOf(c.tokens, Output) == m.io.output
                   && FigureOf(c.tokens, CacheRead) == m.cache.read
                   && FigureOf(c.tokens, CacheCreation) == m.cache.creation
                   && FigureOf(c.tokens, Total) == m.io.input + m.io.output + m.cache.read + m.cache.creation
    ensures e.byModel == [] ==>
              Contributions(e) ==
                if e.model == None || e.model == Some("") then [] else [Contribution(e.model.value, e.cost, e.tokens)]
  {
  }

  // ---- Rounding -----------------------------------------------------------------------

  /** A published figure is a whole number of hundred-millionths: the nearest one, and of two
      equally near ones the even one. */
  lemma RoundedIs(x: real, n: int)
    ensures Round8(x) * 100000000.0 == n as real <==> IsNearest(x * 100000000.0, n)
  {
    HalfEvenIs(x * 100000000.0, n);
  }

  ghost predicate IsNearest(x: real, n: int) {
    Distance(n as real, x) < 0.5 || (Distance(n as real, x) == 0.5 && n % 2 == 0)
  }

  lemma HalfEvenIs(x: real, n: int)
    ensures HalfEven(x) == n <==> IsNearest(x, n)
  {
    var down := x.Floor;
    assert down as real <= x < down as real + 1.0;
    if IsNearest(x, n) {
      assert n == down || n == down + 1;
    }
  }
}
