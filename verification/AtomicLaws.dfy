/** What a crash can leave: whole files, in order, and nothing near the run state. */
module AtomicLaws {
  import opened Common
  import opened Paths
  import opened Project
  import opened AtomicWrite
  import RunStates

  ghost predicate DistinctPaths(changes: Plan) {
    forall i, j :: 0 <= i < j < |changes| ==> changes[i].path != changes[j].path
  }

  predicate LooksTemporary(path: Path) { path != [] && IsTempName(path[|path| - 1]) }

  predicate IsTempName(name: string) { |name| >= 4 && name[|name| - 4..] == ".tmp" }

  /** The file holds the change's whole new text, or is gone if the change removes it. */
  ghost predicate IsNew(d: Disk, change: PlannedChange) {
    if change.newText.None? then change.path !in d
    else change.path in d && d[change.path] == Text(change.newText.value)
  }

  ghost predicate IsSame(d: Disk, before: Disk, path: Path) {
    (path in d <==> path in before) && (path in d ==> d[path] == before[path])
  }

  /** The first `k` files are new, the others old. */
  ghost predicate IsPrefixApplied(before: Disk, changes: Plan, k: nat, d: Disk) {
    && (forall i :: 0 <= i < |changes| && i < k ==> IsNew(d, changes[i]))
    && (forall i :: k <= i < |changes| ==> IsSame(d, before, changes[i].path))
  }

  ghost predicate IsPlanned(changes: Plan, k: nat, path: Path) {
    exists i :: 0 <= i < |changes| && i < k && changes[i].path == path
  }

  lemma {:induction false} AfterElsewhere(before: Disk, changes: Plan, k: nat, path: Path)
    requires k <= |changes| && !IsPlanned(changes, k, path)
    ensures IsSame(After(before, changes[..k]), before, path)
  {
    if k > 0 {
      AfterElsewhere(before, changes, k - 1, path);
      AfterStep(before, changes, k - 1);
    }
  }

  /** A change that no later one overwrites has landed. */
  lemma {:induction false} AfterHolds(before: Disk, changes: Plan, k: nat, i: nat)
    requires i < k <= |changes| && forall j :: i < j < k ==> changes[j].path != changes[i].path
    ensures IsNew(After(before, changes[..k]), changes[i])
  {
    AfterStep(before, changes, k - 1);
    if i < k - 1 {
      AfterHolds(before, changes, k - 1, i);
    }
  }

  lemma AfterIsPrefixApplied(before: Disk, changes: Plan, k: nat)
    requires k <= |changes| && DistinctPaths(changes)
    ensures IsPrefixApplied(before, changes, k, After(before, changes[..k]))
  {
    forall i | 0 <= i < k ensures IsNew(After(before, changes[..k]), changes[i]) {
      AfterHolds(before, changes, k, i);
    }
    forall i | k <= i < |changes| ensures IsSame(After(before, changes[..k]), before, changes[i].path) {
      AfterElsewhere(before, changes, k, changes[i].path);
    }
  }

  lemma TempLooksTemporary(target: Path, token: string)
    ensures LooksTemporary(TempOf(target, token))
  {
    var name := if target == [] then "" else target[|target| - 1];
    assert TempName(name, token) == ("." + name + "." + token) + ".tmp";
  }

  /** Whenever a crash comes, each planned file is whole, old or new, and the new ones are the
      first ones in apply order; every other file is untouched, but for a temporary. */
  lemma EveryFileIsWhole(before: Disk, changes: Plan, d: Disk)
    requires IsIntermediate(before, changes, d) && DistinctPaths(changes)
    requires forall i :: 0 <= i < |changes| ==> !LooksTemporary(changes[i].path)
    ensures exists k: nat :: k <= |changes| && IsPrefixApplied(before, changes, k, d)
  {
    var k: nat :| IsAfterFirst(before, changes, k, d);
    var done := After(before, changes[..k]);
    AfterIsPrefixApplied(before, changes, k);
    forall path | !LooksTemporary(path) ensures IsSame(d, done, path) {
      OnlyTempDiffers(before, changes, k, d, path);
    }
    assert IsPrefixApplied(before, changes, k, d);
  }

  lemma OnlyTempDiffers(before: Disk, changes: Plan, k: nat, d: Disk, path: Path)
    requires IsAfterFirst(before, changes, k, d) && !LooksTemporary(path)
    ensures IsSame(d, After(before, changes[..k]), path)
  {
    var done := After(before, changes[..k]);
    if d != done {
      var token :| HasSomeTemp(d, done, TempOf(changes[k].path, token));
      TempLooksTemporary(changes[k].path, token);
    }
  }

  /** No other file changes, but for temporaries. */
  lemma OtherFilesStay(before: Disk, changes: Plan, d: Disk, path: Path)
    requires IsIntermediate(before, changes, d)
    requires !LooksTemporary(path) && !IsPlanned(changes, |changes|, path)
    ensures IsSame(d, before, path)
  {
    var k: nat :| IsAfterFirst(before, changes, k, d);
    OnlyTempDiffers(before, changes, k, d, path);
    AfterElsewhere(before, changes, k, path);
  }

  /** The manifest is never older than a content file, nor a content file than the roadmap:
      in every state, a change that has landed has nothing unlanded of a lower rank. */
  lemma NewFilesComeInRankOrder(p: Project, before: Disk, plan: Plan, d: Disk, i: nat, j: nat)
    requires IsIntermediate(before, Ordered(p, plan), d) && DistinctPaths(Ordered(p, plan))
    requires forall c :: c in plan ==> !LooksTemporary(c.path)
    requires i < |Ordered(p, plan)| && j < |Ordered(p, plan)|
    requires Rank(p, Ordered(p, plan)[i]) < Rank(p, Ordered(p, plan)[j])
    ensures IsNew(d, Ordered(p, plan)[i]) || IsSame(d, before, Ordered(p, plan)[j].path)
  {
    OrderedIs(p, plan);
    EveryFileIsWhole(before, Ordered(p, plan), d);
  }

  // ---- Nothing in the way -------------------------------------------------------------

  predicate AreApart(a: Path, b: Path) { !IsBelow(a, b) && !IsBelow(b, a) }

  /** Nothing on the disk is in the way of a change, nor is one change in the way of another. */
  ghost predicate IsClear(disk: Disk, changes: Plan) {
    && (forall i :: 0 <= i < |changes| ==> !IsObstructed(disk, changes[i].path))
    && (forall i, j :: 0 <= i < |changes| && 0 <= j < |changes| ==> AreApart(changes[i].path, changes[j].path))
  }

  lemma FileIsApart(disk: Disk, file: Path, path: Path)
    requires file in disk && !IsObstructed(disk, path)
    ensures AreApart(file, path)
  {
  }

  lemma NewFilesArePlanned(before: Disk, changes: Plan, k: nat, path: Path)
    requires k <= |changes| && path in After(before, changes[..k])
    ensures path in before || IsPlanned(changes, k, path)
  {
    if !IsPlanned(changes, k, path) {
      AfterElsewhere(before, changes, k, path);
    }
  }

  /** What lands puts nothing in the way of a path that it is apart from. */
  lemma ApartStaysClear(before: Disk, changes: Plan, k: nat, path: Path)
    requires k <= |changes| && !IsObstructed(before, path)
    requires forall i :: 0 <= i < |changes| ==> AreApart(changes[i].path, path)
    ensures !IsObstructed(After(before, changes[..k]), path)
  {
    forall q | q in After(before, changes[..k]) ensures !IsBelow(path, q) && !IsBelow(q, path) {
      NewFilesArePlanned(before, changes, k, q);
    }
  }

  lemma ClearStays(before: Disk, changes: Plan, k: nat, i: nat)
    requires IsClear(before, changes) && k <= |changes| && i < |changes|
    ensures !IsObstructed(After(before, changes[..k]), changes[i].path)
  {
    ApartStaysClear(before, changes, k, changes[i].path);
  }

  /** Such a plan meets nothing. */
  lemma ClearGoesIn(before: Disk, changes: Plan)
    requires IsClear(before, changes)
    ensures FirstObstructed(before, changes).None?
  {
    forall k | 0 <= k < |changes| ensures GoesIn(before, changes, k) {
      ClearStays(before, changes, k, k);
    }
  }

  // ---- Plans in order -----------------------------------------------------------------

  lemma {:induction false} NoneOfRank(p: Project, plan: Plan, rank: nat)
    requires forall i :: 0 <= i < |plan| ==> Rank(p, plan[i]) != rank
    ensures OfRank(p, plan, rank) == []
  {
    if plan != [] {
      NoneOfRank(p, plan[1..], rank);
    }
  }

  /** A plan already in rank order is applied as given. */
  lemma {:induction false} InOrderStays(p: Project, plan: Plan)
    requires forall i, j :: 0 <= i < j < |plan| ==> Rank(p, plan[i]) <= Rank(p, plan[j])
    ensures Ordered(p, plan) == plan
  {
    if plan != [] {
      var first, rest := plan[0], plan[1..];
      InOrderStays(p, rest);
      if Rank(p, first) > 0 {
        NoneOfRank(p, rest, 0);
      }
      if Rank(p, first) > 1 {
        NoneOfRank(p, rest, 1);
      }
      Regroup(first, OfRank(p, rest, 0), OfRank(p, rest, 1), OfRank(p, rest, 2));
      assert plan == [first] + rest;
    }
  }

  lemma Regroup(x: PlannedChange, a: Plan, b: Plan, c: Plan)
    ensures ([x] + a) + ([] + b) + ([] + c) == [x] + (a + b + c)
    ensures a == [] ==> ([] + a) + ([x] + b) + ([] + c) == [x] + (a + b + c)
    ensures a == [] && b == [] ==> ([] + a) + ([] + b) + ([x] + c) == [x] + (a + b + c)
  {
  }

  lemma TempNameEnd(name: string)
    requires IsTempName(name)
    ensures name[|name| - 1] == 'p'
  {
    assert name[|name| - 4..][3] == 'p';
  }

  /** Where the run state of a discovered project can be, no temporary name fits. */
  lemma RunStateIsNotTemporary(p: Project, f: Path)
    requires IsDiscovered(p) && IsForbidden(p, f)
    ensures f != [] && !LooksTemporary(f)
  {
    var locations := RunStates.RUN_STATE_SOURCE_LOCATIONS;
    var i :| 0 <= i < |locations| && f == p.root + locations[i].path;
    var last := f[|f| - 1];
    assert last == locations[i].path[|locations[i].path| - 1];
    assert last[|last| - 1] != 'p';
    if IsTempName(last) {
      TempNameEnd(last);
    }
  }

  /** Neither a guarded target nor its temporary file is inside a run-state location. */
  lemma TemporariesStayOutOfRunState(p: Project, target: Path, token: string, f: Path)
    requires IsDiscovered(p) && IsSafeTarget(p, target) && IsForbidden(p, f)
    ensures !IsWithin(target, f) && !IsWithin(TempOf(target, token), f)
  {
    assert f in Forbidden(p);
    RunStateIsNotTemporary(p, f);
    TempLooksTemporary(target, token);
    var temp := TempOf(target, token);
    assert target != [] && |f| < |temp| ==> temp[..|f|] == target[..|f|];
  }

  // ---- Said of the paths --------------------------------------------------------------

  /** Whichever order a plan lists them in, the manifest goes first and the roadmap last. */
  lemma LandsInOrder(p: Project, plan: Plan, i: nat, j: nat)
    requires i < |Ordered(p, plan)| && j < |Ordered(p, plan)| && p.roadmap != Some(p.Manifest())
    requires
      var a, b := Ordered(p, plan)[i].path, Ordered(p, plan)[j].path;
      (a == p.Manifest() && b != p.Manifest()) || (p.roadmap != Some(a) && p.roadmap == Some(b))
    ensures i < j
  {
    OrderedIs(p, plan);
    assert Rank(p, Ordered(p, plan)[i]) < Rank(p, Ordered(p, plan)[j]);
  }

  /** So whenever a crash comes: a content file that is new has its new manifest, and a roadmap
      that is new has everything. */
  lemma NewFilesComeInOrder(p: Project, before: Disk, plan: Plan, d: Disk, i: nat, j: nat)
    requires IsIntermediate(before, Ordered(p, plan), d) && DistinctPaths(Ordered(p, plan))
    requires forall c :: c in plan ==> !LooksTemporary(c.path)
    requires i < |Ordered(p, plan)| && j < |Ordered(p, plan)| && p.roadmap != Some(p.Manifest())
    requires
      var a, b := Ordered(p, plan)[i].path, Ordered(p, plan)[j].path;
      (a == p.Manifest() && b != p.Manifest()) || (p.roadmap != Some(a) && p.roadmap == Some(b))
    ensures IsNew(d, Ordered(p, plan)[i]) || IsSame(d, before, Ordered(p, plan)[j].path)
  {
    LandsInOrder(p, plan, i, j);
    OrderedIs(p, plan);
    EveryFileIsWhole(before, Ordered(p, plan), d);
  }

  /** The run state a project was discovered with, wherever it is, and the three places where
      it could be: nothing at them or below them can be written, and everything else under
      the root can. */
  lemma RunStateIsOutOfReach(p: Project, target: Path)
    ensures IsSafeTarget(p, target) <==>
      && IsWithin(target, p.root)
      && !IsWithin(target, p.root + [".factory", "run-state.json"])
      && !IsWithin(target, p.root + [".factory", "run-state"])
      && !IsWithin(target, p.root + ["docs", "planning", ".run-state"])
      && (p.source.Some? ==> !IsWithin(target, p.source.value))
  {
    var locations := RunStates.RUN_STATE_SOURCE_LOCATIONS;
    assert locations[0].path == [".factory", "run-state.json"];
    assert locations[1].path == [".factory", "run-state"];
    assert locations[2].path == ["docs", "planning", ".run-state"];
    assert forall i :: 0 <= i < |locations| ==> IsForbidden(p, p.root + locations[i].path);
    assert p.source.Some? ==> IsForbidden(p, p.source.value);
    assert forall f :: IsForbidden(p, f) ==> f in Forbidden(p);
  }

  /** A temporary file stands beside its target, hidden, under a name of its own. */
  lemma TemporaryIsBeside(target: Path, token: string)
    requires target != []
    ensures
      var n, temp := |target| - 1, TempOf(target, token);
      && |temp| == |target| && temp[..n] == target[..n]
      && temp[n] == "." + target[n] + "." + token + ".tmp" && temp[n][0] == '.' && temp != target
  {
    var n, temp := |target| - 1, TempOf(target, token);
    assert |temp[n]| > |target[n]|;
  }
}
