/** The report is a function of the records alone, and the level cut accounts for every cent. */
module SpendLaws {
  import opened Common
  import opened Spend

  // ---- Order --------------------------------------------------------------------------

  /** The same record, its breakdown written in any key order. */
  ghost predicate SameRecord(e: Entry, f: Entry) {
    f == e.(byModel := f.byModel) && multiset(e.byModel) == multiset(f.byModel)
  }

  /** The same records in any order, each with its breakdown in any key order. */
  ghost predicate SameRecords(a: seq<Entry>, b: seq<Entry>, reordered: seq<Entry>) {
    && multiset(a) == multiset(reordered) && |reordered| == |b|
    && forall i :: 0 <= i < |b| ==> SameRecord(reordered[i], b[i])
  }

  lemma {:induction false} FoldPointwise<T, A>(a: seq<T>, b: seq<T>, share: T -> A, add: (A, A) -> A, zero: A)
    requires |a| == |b| && forall i :: 0 <= i < |a| ==> share(a[i]) == share(b[i])
    ensures Fold(a, share, add, zero) == Fold(b, share, add, zero)
  {
    if a != [] {
      FoldPointwise(a[..|a| - 1], b[..|b| - 1], share, add, zero);
    }
  }

  /** Contributions are read off the breakdown one by one. */
  lemma {:induction false} FoldMapped<A>(pairs: seq<(string, ModelCost)>, mapped: seq<Contribution>,
                                         share: Contribution -> A, add: (A, A) -> A, zero: A)
    requires |pairs| == |mapped| && forall i :: 0 <= i < |pairs| ==> mapped[i] == FromModel(pairs[i])
    ensures Fold(mapped, share, add, zero) == Fold(pairs, x => share(FromModel(x)), add, zero)
  {
    if pairs != [] {
      FoldMapped(pairs[..|pairs| - 1], mapped[..|mapped| - 1], share, add, zero);
    }
  }

  lemma PermutedBreakdown<A(!new)>(e: Entry, f: Entry, share: Contribution -> A, add: (A, A) -> A, zero: A)
    requires SameRecord(e, f) && Commutes(add)
    ensures Fold(Contributions(e), share, add, zero) == Fold(Contributions(f), share, add, zero)
  {
    assert |multiset(e.byModel)| == |e.byModel| && |multiset(f.byModel)| == |f.byModel|;
    if e.byModel != [] {
      FoldMapped(e.byModel, Contributions(e), share, add, zero);
      FoldMapped(f.byModel, Contributions(f), share, add, zero);
      FoldPermuted(e.byModel, f.byModel, x => share(FromModel(x)), add, zero);
    }
  }

  lemma SameContributions(e: Entry, f: Entry)
    requires SameRecord(e, f)
    ensures forall c :: c in Contributions(e) <==> c in Contributions(f)
  {
    assert |multiset(e.byModel)| == |e.byModel| && |multiset(f.byModel)| == |f.byModel|;
    forall c | c in Contributions(e) ensures c in Contributions(f) {
      OneContribution(e, f, c);
    }
    forall c | c in Contributions(f) ensures c in Contributions(e) {
      OneContribution(f, e, c);
    }
  }

  lemma OneContribution(e: Entry, f: Entry, c: Contribution)
    requires SameRecord(e, f) && c in Contributions(e)
    ensures c in Contributions(f)
  {
    assert |multiset(e.byModel)| == |e.byModel| && |multiset(f.byModel)| == |f.byModel|;
    if e.byModel != [] {
      var i :| 0 <= i < |Contributions(e)| && Contributions(e)[i] == c;
      assert e.byModel[i] in multiset(e.byModel);
      var j :| 0 <= j < |f.byModel| && f.byModel[j] == e.byModel[i];
      assert Contributions(f)[j] == c;
    }
  }

  /** Each record adds the same to every bucket, whatever its key order. */
  lemma SameShares(e: Entry, f: Entry, key: string)
    requires SameRecord(e, f)
    ensures WholeShare()(e) == WholeShare()(f) && WholeTokens()(e) == WholeTokens()(f)
    ensures TicketShare(key)(e) == TicketShare(key)(f) && LevelShare(key)(e) == LevelShare(key)(f)
    ensures ModelShare(key)(e) == ModelShare(key)(f) && ModelTokens(key)(e) == ModelTokens(key)(f)
  {
    PermutedBreakdown(e, f, OfModel(key), Add, ZERO);
    PermutedBreakdown(e, f, TokensOfModel(key), AddTokens, NO_TOKENS);
  }

  lemma SameTotals<A(!new)>(a: seq<Entry>, b: seq<Entry>, reordered: seq<Entry>, share: Entry -> A,
                            add: (A, A) -> A, zero: A)
    requires SameRecords(a, b, reordered) && Commutes(add)
    requires forall e, f :: SameRecord(e, f) ==> share(e) == share(f)
    ensures Fold(a, share, add, zero) == Fold(b, share, add, zero)
  {
    FoldPermuted(a, reordered, share, add, zero);
    FoldPointwise(reordered, b, share, add, zero);
  }

  lemma TotalsAgree(a: seq<Entry>, b: seq<Entry>, reordered: seq<Entry>)
    requires SameRecords(a, b, reordered)
    ensures Sum(a, WholeShare()) == Sum(b, WholeShare()) && SumTokens(a, WholeTokens()) == SumTokens(b, WholeTokens())
  {
    SameTotals(a, b, reordered, WholeShare(), Add, ZERO);
    SameTotals(a, b, reordered, WholeTokens(), AddTokens, NO_TOKENS);
  }

  lemma TicketSumsAgree(a: seq<Entry>, b: seq<Entry>, reordered: seq<Entry>, t: string)
    requires SameRecords(a, b, reordered)
    ensures Sum(a, TicketShare(t)) == Sum(b, TicketShare(t))
  {
    SameTotals(a, b, reordered, TicketShare(t), Add, ZERO);
  }

  lemma LevelSumsAgree(a: seq<Entry>, b: seq<Entry>, reordered: seq<Entry>, l: string)
    requires SameRecords(a, b, reordered)
    ensures Sum(a, LevelShare(l)) == Sum(b, LevelShare(l))
  {
    SameTotals(a, b, reordered, LevelShare(l), Add, ZERO);
  }

  lemma ModelSumsAgree(a: seq<Entry>, b: seq<Entry>, reordered: seq<Entry>, m: string)
    requires SameRecords(a, b, reordered)
    ensures Sum(a, ModelShare(m)) == Sum(b, ModelShare(m))
  {
    var share := ModelShare(m);
    forall e, f | SameRecord(e, f) ensures share(e) == share(f) {
      SameShares(e, f, m);
    }
    SameTotals(a, b, reordered, share, Add, ZERO);
  }

  lemma ModelTokensAgree(a: seq<Entry>, b: seq<Entry>, reordered: seq<Entry>, m: string)
    requires SameRecords(a, b, reordered)
    ensures SumTokens(a, ModelTokens(m)) == SumTokens(b, ModelTokens(m))
  {
    var share := ModelTokens(m);
    forall e, f | SameRecord(e, f) ensures share(e) == share(f) {
      SameShares(e, f, m);
    }
    SameTotals(a, b, reordered, share, AddTokens, NO_TOKENS);
  }

  /** Every record of the one list has its twin in the other. */
  lemma Twin(a: seq<Entry>, b: seq<Entry>, reordered: seq<Entry>)
    requires SameRecords(a, b, reordered)
    ensures forall e :: e in a ==> exists f :: f in b && SameRecord(e, f)
    ensures forall f :: f in b ==> exists e :: e in a && SameRecord(e, f)
  {
    forall e | e in a ensures exists f :: f in b && SameRecord(e, f) {
      assert e in multiset(a);
      var i :| 0 <= i < |reordered| && reordered[i] == e;
      assert b[i] in b && SameRecord(e, b[i]);
    }
    forall f | f in b ensures exists e :: e in a && SameRecord(e, f) {
      var i :| 0 <= i < |b| && b[i] == f;
      assert reordered[i] in multiset(reordered);
      assert reordered[i] in a && SameRecord(reordered[i], f);
    }
  }

  lemma SameKeys(a: seq<Entry>, b: seq<Entry>, reordered: seq<Entry>)
    requires SameRecords(a, b, reordered)
    ensures Tickets(a) == Tickets(b) && Levels(a) == Levels(b) && Models(a) == Models(b)
    ensures forall t :: ModelsSeen(a, t) == ModelsSeen(b, t)
  {
    Twin(a, b, reordered);
    forall e, f | SameRecord(e, f) ensures forall c :: c in Contributions(e) <==> c in Contributions(f) {
      SameContributions(e, f);
    }
  }

  /** The report depends on nothing but the records: neither their order nor the key order of
      their breakdowns shows, in any cut or its sorting. */
  lemma ReportIsOrderFree(a: seq<Entry>, b: seq<Entry>, reordered: seq<Entry>, r: Report, q: Report)
    requires SameRecords(a, b, reordered) && IsReportOf(r, a) && IsReportOf(q, b)
    ensures r == q
  {
    SameKeys(a, b, reordered);
    forall k: string
      ensures TicketRow(a, k) == TicketRow(b, k) && ModelRow(a, k) == ModelRow(b, k) && LevelRow(a, k) == LevelRow(b, k)
    {
      TicketSumsAgree(a, b, reordered, k);
      ModelSumsAgree(a, b, reordered, k);
      ModelTokensAgree(a, b, reordered, k);
      LevelSumsAgree(a, b, reordered, k);
    }
    TotalsAgree(a, b, reordered);
    CutIsUnique(r.byTicket, q.byTicket);
    CutIsUnique(r.byModel, q.byModel);
    CutIsUnique(r.byLevel, q.byLevel);
  }

  // ---- Conservation -------------------------------------------------------------------

  /** What each row of the level cut adds up, before rounding. */
  function ExactLevel(entries: seq<Entry>): Row -> Amount { (r: Row) => Sum(entries, LevelShare(r.key)) }

  function OneLevel(e: Entry): Row -> Amount { (r: Row) => LevelShare(r.key)(e) }

  ghost predicate DistinctKeys(rows: seq<Row>) { forall i, j :: 0 <= i < j < |rows| ==> rows[i].key != rows[j].key }

  lemma {:induction false} NothingExact(rows: seq<Row>)
    ensures Sum(rows, ExactLevel([])) == ZERO
  {
    if rows != [] {
      NothingExact(rows[..|rows| - 1]);
    }
  }

  lemma AddSwaps(a: Amount, b: Amount, c: Amount, d: Amount)
    ensures Add(Add(a, b), Add(c, d)) == Add(Add(a, c), Add(b, d))
  {
  }

  lemma {:induction false} ExactSplits(rows: seq<Row>, entries: seq<Entry>, e: Entry)
    ensures Sum(rows, ExactLevel(entries + [e])) == Add(Sum(rows, ExactLevel(entries)), Sum(rows, OneLevel(e)))
  {
    if rows != [] {
      var init, last := rows[..|rows| - 1], rows[|rows| - 1];
      ExactSplits(init, entries, e);
      SumAppend(entries, e, LevelShare(last.key));
      AddSwaps(Sum(init, ExactLevel(entries)), Sum(init, OneLevel(e)), ExactLevel(entries)(last), OneLevel(e)(last));
    }
  }

  ghost predicate HasLevel(rows: seq<Row>, l: string) { exists i :: 0 <= i < |rows| && l == rows[i].key }

  lemma HasLevelStep(rows: seq<Row>, l: string)
    requires rows != [] && DistinctKeys(rows)
    ensures HasLevel(rows, l) <==> HasLevel(rows[..|rows| - 1], l) || l == rows[|rows| - 1].key
    ensures HasLevel(rows[..|rows| - 1], l) ==> l != rows[|rows| - 1].key
  {
    var n := |rows| - 1;
    assert forall i :: 0 <= i < n ==> rows[..n][i] == rows[i];
  }

  lemma OneLevelIs(r: Row, e: Entry)
    ensures OneLevel(e)(r) == if e.level == r.key then Amount(e.cost, 1) else ZERO
  {
    assert OneLevel(e)(r) == LevelShare(r.key)(e);
  }

  /** One record lands in one level row. */
  lemma {:induction false} OneLandsOnce(rows: seq<Row>, e: Entry)
    requires DistinctKeys(rows)
    ensures Sum(rows, OneLevel(e)) == if HasLevel(rows, e.level) then Amount(e.cost, 1) else ZERO
  {
    if rows != [] {
      var n := |rows| - 1;
      OneLandsOnce(rows[..n], e);
      HasLevelStep(rows, e.level);
      OneLevelIs(rows[n], e);
    }
  }

  /** The level rows, exactly summed, are the total: every cost and every entry once. */
  lemma {:induction false} LevelsPartition(rows: seq<Row>, entries: seq<Entry>)
    requires DistinctKeys(rows) && forall i :: 0 <= i < |entries| ==> HasLevel(rows, entries[i].level)
    ensures Sum(rows, ExactLevel(entries)) == Sum(entries, WholeShare())
  {
    if entries == [] {
      NothingExact(rows);
    } else {
      var n := |entries| - 1;
      assert entries == entries[..n] + [entries[n]];
      LevelsPartition(rows, entries[..n]);
      ExactSplits(rows, entries[..n], entries[n]);
      OneLandsOnce(rows, entries[n]);
    }
  }

  function Published(): Row -> Amount { (r: Row) => Amount(r.cost, r.entries) }

  /** Rows published from exact figures: the counts agree, and the costs are off by at most
      half a unit each. */
  lemma {:induction false} PublishedIsNear(rows: seq<Row>, entries: seq<Entry>)
    requires forall i :: 0 <= i < |rows| ==> rows[i] == LevelRow(entries, rows[i].key)
    ensures Sum(rows, Published()).entries == Sum(rows, ExactLevel(entries)).entries
    ensures Distance(Sum(rows, Published()).cost, Sum(rows, ExactLevel(entries)).cost) <= Halves(|rows|)
  {
    if rows != [] {
      var n := |rows| - 1;
      PublishedIsNear(rows[..n], entries);
      RoundingIsNear(Sum(entries, LevelShare(rows[n].key)).cost);
      assert Published()(rows[n]).cost == Round8(ExactLevel(entries)(rows[n]).cost);
      assert Published()(rows[n]).entries == ExactLevel(entries)(rows[n]).entries;
      NearStep(Sum(rows[..n], Published()).cost, Sum(rows[..n], ExactLevel(entries)).cost,
               Published()(rows[n]).cost, ExactLevel(entries)(rows[n]).cost, n);
    }
  }

  lemma NearStep(a: real, b: real, c: real, d: real, n: nat)
    requires Distance(a, b) <= Halves(n) && Distance(c, d) <= Halves(1)
    ensures Distance(a + c, b + d) <= Halves(n + 1)
  {
  }

  /** The level cut against the totals: the entry counts sum to the total exactly, and the
      published costs differ from the published total by at most (levels + 1) / 2 units. */
  lemma LevelsAccountForTotal(entries: seq<Entry>, r: Report)
    requires IsReportOf(r, entries)
    ensures Sum(r.byLevel, Published()).entries == r.totals.entries == |entries|
    ensures Sum(r.byLevel, ExactLevel(entries)).cost == Sum(entries, WholeShare()).cost
    ensures Distance(Sum(r.byLevel, Published()).cost, r.totals.cost) <= Halves(|r.byLevel| + 1)
  {
    CutHasDistinctKeys(r.byLevel, entries);
    forall i | 0 <= i < |entries| ensures HasLevel(r.byLevel, entries[i].level) {
      EveryLevelHasARow(r.byLevel, entries, entries[i].level);
    }
    LevelsPartition(r.byLevel, entries);
    PublishedIsNear(r.byLevel, entries);
    RoundingIsNear(Sum(entries, WholeShare()).cost);
    EntriesAreCounted(entries);
  }

  lemma EveryLevelHasARow(rows: seq<Row>, entries: seq<Entry>, l: string)
    requires IsCut(rows, Levels(entries), (l: string) => LevelRow(entries, l)) && l in Levels(entries)
    ensures HasLevel(rows, l)
  {
    var row := LevelRow(entries, l);
    var rowOf := (l: string) => LevelRow(entries, l);
    assert row == rowOf(l);
    assert row in rows;
    var i :| 0 <= i < |rows| && rows[i] == row;
  }

  lemma CutHasDistinctKeys(rows: seq<Row>, entries: seq<Entry>)
    requires IsCut(rows, Levels(entries), (l: string) => LevelRow(entries, l))
    ensures DistinctKeys(rows) && forall i :: 0 <= i < |rows| ==> rows[i] == LevelRow(entries, rows[i].key)
  {
    forall i, j | 0 <= i < j < |rows| ensures rows[i].key != rows[j].key {
      assert rows[i] in rows && rows[j] in rows && Before(rows[i], rows[j]);
      if rows[i].key == rows[j].key {
        StrLessIrreflexive(rows[i].key);
      }
    }
    forall i | 0 <= i < |rows| ensures rows[i] == LevelRow(entries, rows[i].key) {
      assert rows[i] in rows;
    }
  }

  lemma {:induction false} EntriesAreCounted(entries: seq<Entry>)
    ensures Sum(entries, WholeShare()).entries == |entries|
  {
    if entries != [] {
      EntriesAreCounted(entries[..|entries| - 1]);
    }
  }
}
