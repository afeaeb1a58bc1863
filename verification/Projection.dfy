/** Dependencies seen twice: the reverse index of the ticket views, and the edges of the graph
    (file_adapter/projection.py, file_adapter/graph.py). */
module Projection {
  import opened Common

  datatype Ticket = Ticket(id: string, dependsOn: seq<string>)

  ghost predicate UniqueIds(tickets: seq<Ticket>) {
    forall i, j :: 0 <= i < j < |tickets| ==> tickets[i].id != tickets[j].id
  }

  /** The target is a dependency of another ticket. */
  predicate DependsOn(t: Ticket, target: string) { target in t.dependsOn && target != t.id }

  /** Who depends on an id, in list order. */
  function DependentsOf(tickets: seq<Ticket>, target: string): seq<Ticket> {
    if tickets == [] then []
    else
      var before, last := DependentsOf(tickets[..|tickets| - 1], target), tickets[|tickets| - 1];
      if DependsOn(last, target) then before + [last] else before
  }

  type Index = map<string, seq<Ticket>>

  function At(index: Index, id: string): seq<Ticket> { if id in index then index[id] else [] }

  // ---- The reverse index --------------------------------------------------------------

  /** The inner loop of `__init__`: the ticket joins the dependents of each id it names. */
  method WithTicket(index: Index, t: Ticket) returns (r: Index)
    ensures forall id: string :: At(r, id) == if DependsOn(t, id) then At(index, id) + [t] else At(index, id)
  {
    r := index;
    var ids := Dedup(t.dependsOn);
    for k := 0 to |ids|
      invariant forall id: string ::
                  At(r, id) == if id in ids[..k] && id != t.id then At(index, id) + [t] else At(index, id)
    {
      assert ids[..k + 1] == ids[..k] + [ids[k]];
      assert ids[k] !in ids[..k];
      if ids[k] == t.id {
        continue;
      }
      r := r[ids[k] := At(r, ids[k]) + [t]];
    }
    assert ids[..|ids|] == ids;
  }

  class TicketProjection {
    const tickets: seq<Ticket>
    var dependents: Index

    /** The index `__init__` builds holds, for every id, known or not, its dependents. */
    ghost predicate Valid()
      reads this
    {
      forall id: string :: At(dependents, id) == DependentsOf(tickets, id)
    }

    constructor (tickets: seq<Ticket>)
      ensures Valid() && this.tickets == tickets
    {
      this.tickets := tickets;
      dependents := map[];
      new;
      for i := 0 to |tickets|
        invariant forall id: string :: At(dependents, id) == DependentsOf(tickets[..i], id)
      {
        assert tickets[..i + 1][..i] == tickets[..i];
        dependents := WithTicket(dependents, tickets[i]);
      }
      assert tickets[..|tickets|] == tickets;
    }

    /** `len(self._dependents.get(id, []))`. */
    function DependentCount(id: string): (n: nat)
      reads this
      requires Valid()
      ensures n == |DependentsOf(tickets, id)|
    {
      |At(dependents, id)|
    }

    /** `neighborhood`'s direct dependents, by id. */
    function DirectDependents(id: string): (r: seq<string>)
      reads this
      requires Valid()
      ensures r == Ids(DependentsOf(tickets, id)) && |r| == DependentCount(id)
    {
      Ids(At(dependents, id))
    }
  }

  /** A neighbourhood names each dependent once, and exactly the other tickets that depend on
      the id. */
  lemma {:induction false} DependentsAreNamedOnce(tickets: seq<Ticket>, id: string)
    requires UniqueIds(tickets)
    ensures Distinct(Ids(DependentsOf(tickets, id)))
    ensures forall x :: x in Ids(DependentsOf(tickets, id)) <==>
      exists k :: 0 <= k < |tickets| && tickets[k].id == x && DependsOn(tickets[k], id)
  {
    if tickets != [] {
      var n := |tickets| - 1;
      DependentsAreNamedOnce(tickets[..n], id);
      var before, all := Ids(DependentsOf(tickets[..n], id)), Ids(DependentsOf(tickets, id));
      if DependsOn(tickets[n], id) {
        assert all == before + [tickets[n].id];
        assert tickets[n].id !in before;
      }
      forall k | 0 <= k < n ensures tickets[..n][k] == tickets[k] {
      }
    }
  }

  function Ids(tickets: seq<Ticket>): (r: seq<string>)
    ensures |r| == |tickets| && forall i :: 0 <= i < |r| ==> r[i] == tickets[i].id
  {
    seq(|tickets|, i requires 0 <= i < |tickets| => tickets[i].id)
  }

  // ---- The graph ----------------------------------------------------------------------

  datatype Edge = Edge(source: string, target: string)

  /** A ticket's own edges: distinct, known, not to itself. */
  function EdgesFrom(source: string, ids: seq<string>, known: set<string>): seq<Edge> {
    if ids == [] then []
    else
      var before, id := EdgesFrom(source, ids[..|ids| - 1], known), ids[|ids| - 1];
      if id != source && id in known then before + [Edge(source, id)] else before
  }

  function EdgesOf(tickets: seq<Ticket>, known: set<string>): seq<Edge> {
    if tickets == [] then []
    else
      var last := tickets[|tickets| - 1];
      EdgesOf(tickets[..|tickets| - 1], known) + EdgesFrom(last.id, Dedup(last.dependsOn), known)
  }

  function Known(tickets: seq<Ticket>): set<string> { set t | t in tickets :: t.id }

  /** `build_graph`'s edges. */
  function GraphEdges(tickets: seq<Ticket>): seq<Edge> { EdgesOf(tickets, Known(tickets)) }

  // ---- Agreement ----------------------------------------------------------------------

  lemma {:induction false} EdgesFromAre(source: string, ids: seq<string>, known: set<string>)
    requires Distinct(ids)
    ensures Distinct(EdgesFrom(source, ids, known))
    ensures forall e :: e in EdgesFrom(source, ids, known) <==>
      e.source == source && e.target in ids && e.target != source && e.target in known
  {
    if ids != [] {
      var n := |ids| - 1;
      assert ids == ids[..n] + [ids[n]];
      EdgesFromAre(source, ids[..n], known);
    }
  }

  lemma DistinctConcat<T>(a: seq<T>, b: seq<T>)
    requires Distinct(a) && Distinct(b) && forall x :: x in a ==> x !in b
    ensures Distinct(a + b)
  {
    forall i, j | 0 <= i < j < |a + b| ensures (a + b)[i] != (a + b)[j] {
      if i < |a| && j >= |a| {
        assert (a + b)[i] in a && (a + b)[j] in b;
      }
    }
  }

  lemma {:induction false} EdgesAre(tickets: seq<Ticket>, known: set<string>)
    requires UniqueIds(tickets)
    ensures Distinct(EdgesOf(tickets, known))
    ensures forall e :: e in EdgesOf(tickets, known) <==>
      e.target in known && exists t :: t in tickets && t.id == e.source && DependsOn(t, e.target)
  {
    if tickets != [] {
      var n := |tickets| - 1;
      var last := tickets[n];
      var before, own := EdgesOf(tickets[..n], known), EdgesFrom(last.id, Dedup(last.dependsOn), known);
      assert tickets == tickets[..n] + [last];
      EdgesAre(tickets[..n], known);
      EdgesFromAre(last.id, Dedup(last.dependsOn), known);
      forall e | e in before ensures e !in own {
        var t :| t in tickets[..n] && t.id == e.source && DependsOn(t, e.target);
        var i :| 0 <= i < n && tickets[..n][i] == t;
        assert tickets[i].id != last.id;
      }
      DistinctConcat(before, own);
    }
  }

  lemma {:induction false} DependentsAre(tickets: seq<Ticket>, target: string)
    ensures forall t :: t in DependentsOf(tickets, target) <==> t in tickets && DependsOn(t, target)
  {
    if tickets != [] {
      assert tickets == tickets[..|tickets| - 1] + [tickets[|tickets| - 1]];
      DependentsAre(tickets[..|tickets| - 1], target);
    }
  }

  /** With unique ids the two views agree: an edge from s to t is there exactly when s is among
      t's dependents and t is a known ticket; and no edge is there twice. */
  lemma EdgesAgreeWithIndex(tickets: seq<Ticket>)
    requires UniqueIds(tickets)
    ensures Distinct(GraphEdges(tickets))
    ensures forall s, t :: Edge(s, t) in GraphEdges(tickets) <==>
      t in Known(tickets) && s in Ids(DependentsOf(tickets, t))
  {
    EdgesAre(tickets, Known(tickets));
    forall s: string, t: string
      ensures s in Ids(DependentsOf(tickets, t)) <==> exists x :: x in tickets && x.id == s && DependsOn(x, t)
    {
      DependentsAre(tickets, t);
    }
  }

  // ---- Counts -------------------------------------------------------------------------

  /** The dependent counts of some ids, added up. */
  function CountSum(tickets: seq<Ticket>, ids: seq<string>): nat {
    if ids == [] then 0
    else CountSum(tickets, ids[..|ids| - 1]) + |DependentsOf(tickets, ids[|ids| - 1])|
  }

  /** How many of some ids a ticket depends on. */
  function Hits(t: Ticket, ids: seq<string>): nat {
    if ids == [] then 0 else Hits(t, ids[..|ids| - 1]) + if DependsOn(t, ids[|ids| - 1]) then 1 else 0
  }

  lemma {:induction false} CountsSplit(tickets: seq<Ticket>, t: Ticket, ids: seq<string>)
    ensures CountSum(tickets + [t], ids) == CountSum(tickets, ids) + Hits(t, ids)
  {
    if ids != [] {
      CountsSplit(tickets, t, ids[..|ids| - 1]);
      assert (tickets + [t])[..|tickets|] == tickets;
    }
  }

  lemma {:induction false} NoDependents(ids: seq<string>)
    ensures CountSum([], ids) == 0
  {
    if ids != [] {
      NoDependents(ids[..|ids| - 1]);
    }
  }

  lemma OneMore(before: set<string>, all: set<string>, id: string, taken: bool)
    requires id !in before && all == if taken then before + {id} else before
    ensures |all| == |before| + if taken then 1 else 0
  {
  }

  /** Both count the known ids a ticket depends on, one by one. */
  lemma {:induction false} HitsAre(t: Ticket, ids: seq<string>)
    requires Distinct(ids)
    ensures Hits(t, ids) == |set id | id in ids && DependsOn(t, id)|
  {
    if ids != [] {
      var n := |ids| - 1;
      HitsAre(t, ids[..n]);
      assert ids == ids[..n] + [ids[n]];
      var before, all := set id | id in ids[..n] && DependsOn(t, id), set id | id in ids && DependsOn(t, id);
      OneMore(before, all, ids[n], DependsOn(t, ids[n]));
    }
  }

  predicate IsTarget(source: string, known: set<string>, id: string) { id != source && id in known }

  lemma {:induction false} EdgesFromCount(source: string, ids: seq<string>, known: set<string>)
    requires Distinct(ids)
    ensures |EdgesFrom(source, ids, known)| == |set id | id in ids && IsTarget(source, known, id)|
  {
    if ids != [] {
      var n := |ids| - 1;
      EdgesFromCount(source, ids[..n], known);
      LastIsNew(ids);
      var before := set id | id in ids[..n] && IsTarget(source, known, id);
      var all := set id | id in ids && IsTarget(source, known, id);
      OneMore(before, all, ids[n], IsTarget(source, known, ids[n]));
    }
  }

  lemma LastIsNew(ids: seq<string>)
    requires Distinct(ids) && ids != []
    ensures Distinct(ids[..|ids| - 1]) && ids[|ids| - 1] !in ids[..|ids| - 1]
    ensures forall id :: id in ids <==> id in ids[..|ids| - 1] || id == ids[|ids| - 1]
  {
    assert ids == ids[..|ids| - 1] + [ids[|ids| - 1]];
  }

  lemma OneTicketCounts(t: Ticket, ids: seq<string>, known: set<string>)
    requires Distinct(ids) && forall id :: id in ids <==> id in known
    ensures |EdgesFrom(t.id, Dedup(t.dependsOn), known)| == Hits(t, ids)
  {
    EdgesFromCount(t.id, Dedup(t.dependsOn), known);
    HitsAre(t, ids);
    assert (set id | id in Dedup(t.dependsOn) && IsTarget(t.id, known, id))
        == set id | id in ids && DependsOn(t, id);
  }

  lemma {:induction false} CountsAreEdges(tickets: seq<Ticket>, ids: seq<string>, known: set<string>)
    requires Distinct(ids) && forall id :: id in ids <==> id in known
    ensures CountSum(tickets, ids) == |EdgesOf(tickets, known)|
  {
    if tickets == [] {
      NoDependents(ids);
    } else {
      var n := |tickets| - 1;
      assert tickets == tickets[..n] + [tickets[n]];
      CountsAreEdges(tickets[..n], ids, known);
      CountsSplit(tickets[..n], tickets[n], ids);
      OneTicketCounts(tickets[n], ids, known);
    }
  }

  /** The dependent counts over all tickets add up to the number of edges. */
  lemma DependentCountsSumToEdges(tickets: seq<Ticket>)
    requires UniqueIds(tickets)
    ensures CountSum(tickets, Ids(tickets)) == |GraphEdges(tickets)|
  {
    assert forall id :: id in Ids(tickets) <==> id in Known(tickets);
    CountsAreEdges(tickets, Ids(tickets), Known(tickets));
  }

  // ---- Order --------------------------------------------------------------------------

  /** Two tickets stand in the list in this order. */
  ghost predicate Precedes(tickets: seq<Ticket>, a: Ticket, b: Ticket) {
    exists i, j :: 0 <= i < j < |tickets| && tickets[i] == a && tickets[j] == b
  }

  /** Dependents come in list order. */
  lemma {:induction false} DependentsInListOrder(tickets: seq<Ticket>, id: string, a: nat, b: nat)
    requires a < b < |DependentsOf(tickets, id)|
    ensures Precedes(tickets, DependentsOf(tickets, id)[a], DependentsOf(tickets, id)[b])
  {
    var n := |tickets| - 1;
    var before, all := DependentsOf(tickets[..n], id), DependentsOf(tickets, id);
    if b < |before| {
      DependentsInListOrder(tickets[..n], id, a, b);
      var i, j :| 0 <= i < j < n && tickets[..n][i] == all[a] && tickets[..n][j] == all[b];
      assert tickets[i] == all[a] && tickets[j] == all[b];
    } else {
      DependentsAre(tickets[..n], id);
      assert before[a] in before;
      var i :| 0 <= i < n && tickets[..n][i] == before[a];
      assert tickets[i] == all[a] && tickets[n] == all[b];
    }
  }

  /** Two ids stand in a list in this order. */
  ghost predicate AreInOrder(ids: seq<string>, a: string, b: string) {
    exists p, q :: 0 <= p < q < |ids| && ids[p] == a && ids[q] == b
  }

  lemma {:induction false} EdgesFromInOrder(source: string, ids: seq<string>, known: set<string>, a: nat, b: nat)
    requires a < b < |EdgesFrom(source, ids, known)|
    ensures
      var edges := EdgesFrom(source, ids, known);
      AreInOrder(ids, edges[a].target, edges[b].target)
  {
    var n := |ids| - 1;
    var before, all := EdgesFrom(source, ids[..n], known), EdgesFrom(source, ids, known);
    if b < |before| {
      EdgesFromInOrder(source, ids[..n], known, a, b);
      var p, q :| 0 <= p < q < n && ids[..n][p] == all[a].target && ids[..n][q] == all[b].target;
      assert ids[p] == all[a].target && ids[q] == all[b].target;
    } else {
      var p := EdgeHasTarget(source, ids[..n], known, a);
      assert ids[p] == all[a].target && ids[n] == all[b].target;
    }
  }

  lemma {:induction false} EdgeHasTarget(source: string, ids: seq<string>, known: set<string>, a: nat) returns (p: nat)
    requires a < |EdgesFrom(source, ids, known)|
    ensures p < |ids| && ids[p] == EdgesFrom(source, ids, known)[a].target
    ensures EdgesFrom(source, ids, known)[a].source == source
  {
    var n := |ids| - 1;
    if a < |EdgesFrom(source, ids[..n], known)| {
      p := EdgeHasTarget(source, ids[..n], known, a);
    } else {
      p := n;
    }
  }

  /** The first edge's ticket comes earlier in the list, or it is the same ticket and that
      target comes earlier among its dependencies. */
  ghost predicate EdgesInOrder(tickets: seq<Ticket>, a: Edge, b: Edge) {
    exists i, j :: 0 <= i <= j < |tickets| && AreEdgesAt(tickets, a, b, i, j)
  }

  ghost predicate AreEdgesAt(tickets: seq<Ticket>, a: Edge, b: Edge, i: nat, j: nat)
    requires i < |tickets| && j < |tickets|
  {
    && tickets[i].id == a.source && tickets[j].id == b.source
    && (i == j ==> AreInOrder(Dedup(tickets[i].dependsOn), a.target, b.target))
  }

  /** The graph lists its edges by ticket, and those of one ticket in first-seen order. */
  lemma {:induction false} EdgesInListOrder(tickets: seq<Ticket>, known: set<string>, a: nat, b: nat)
    requires a < b < |EdgesOf(tickets, known)|
    ensures EdgesInOrder(tickets, EdgesOf(tickets, known)[a], EdgesOf(tickets, known)[b])
  {
    var n := |tickets| - 1;
    var last := tickets[n];
    var before, own := EdgesOf(tickets[..n], known), EdgesFrom(last.id, Dedup(last.dependsOn), known);
    var all := EdgesOf(tickets, known);
    if b < |before| {
      EdgesInListOrder(tickets[..n], known, a, b);
      var i, j :| 0 <= i <= j < n && AreEdgesAt(tickets[..n], all[a], all[b], i, j);
      assert AreEdgesAt(tickets, all[a], all[b], i, j);
    } else {
      var q := EdgeHasTarget(last.id, Dedup(last.dependsOn), known, b - |before|);
      var i: nat := n;
      if a < |before| {
        i := EdgeHasSource(tickets[..n], known, a);
      } else {
        EdgesFromInOrder(last.id, Dedup(last.dependsOn), known, a - |before|, b - |before|);
        var p := EdgeHasTarget(last.id, Dedup(last.dependsOn), known, a - |before|);
      }
      assert AreEdgesAt(tickets, all[a], all[b], i, n);
    }
  }

  lemma {:induction false} EdgeHasSource(tickets: seq<Ticket>, known: set<string>, a: nat) returns (i: nat)
    requires a < |EdgesOf(tickets, known)|
    ensures i < |tickets| && tickets[i].id == EdgesOf(tickets, known)[a].source
  {
    var n := |tickets| - 1;
    var before := EdgesOf(tickets[..n], known);
    if a < |before| {
      i := EdgeHasSource(tickets[..n], known, a);
    } else {
      i := n;
      var p := EdgeHasTarget(tickets[n].id, Dedup(tickets[n].dependsOn), known, a - |before|);
    }
  }
}
