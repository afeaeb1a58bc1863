/** Applying a plan to disk: guard everything, then one file at a time in a fixed order, each
    by a sibling temporary file and a rename (file_adapter/atomic_write.py). */
module AtomicWrite {
  import opened Common
  import opened Paths
  import opened Project
  import RunStates

  type Plan = seq<PlannedChange>

  // ---- Order --------------------------------------------------------------------------

  /** `_change_rank`. */
  function Rank(p: Project, change: PlannedChange): nat {
    if change.path == p.Manifest() then 0
    else if p.roadmap == Some(change.path) then 2
    else 1
  }

  function OfRank(p: Project, plan: Plan, rank: nat): Plan {
    if plan == [] then []
    else (if Rank(p, plan[0]) == rank then [plan[0]] else []) + OfRank(p, plan[1..], rank)
  }

  /** `sorted(planned, key=rank)`: equal ranks keep their order. */
  function Ordered(p: Project, plan: Plan): Plan { OfRank(p, plan, 0) + OfRank(p, plan, 1) + OfRank(p, plan, 2) }

  lemma {:induction false} OfRankIs(p: Project, plan: Plan, rank: nat)
    ensures forall i :: 0 <= i < |OfRank(p, plan, rank)| ==> Rank(p, OfRank(p, plan, rank)[i]) == rank
    ensures forall x :: x in OfRank(p, plan, rank) <==> x in plan && Rank(p, x) == rank
  {
    if plan != [] {
      OfRankIs(p, plan[1..], rank);
      assert plan == [plan[0]] + plan[1..];
    }
  }

  /** The order is by rank, keeps every change, and keeps the given order within a rank. */
  lemma OrderedIs(p: Project, plan: Plan)
    ensures forall i, j :: 0 <= i < j < |Ordered(p, plan)| ==>
      Rank(p, Ordered(p, plan)[i]) <= Rank(p, Ordered(p, plan)[j])
    ensures forall x :: x in Ordered(p, plan) <==> x in plan
  {
    OfRankIs(p, plan, 0);
    OfRankIs(p, plan, 1);
    OfRankIs(p, plan, 2);
  }

  lemma {:induction false} OfRankCounts(p: Project, plan: Plan, rank: nat, x: PlannedChange)
    ensures multiset(OfRank(p, plan, rank))[x] == if Rank(p, x) == rank then multiset(plan)[x] else 0
  {
    if plan != [] {
      OfRankCounts(p, plan[1..], rank, x);
      assert plan == [plan[0]] + plan[1..];
    }
  }

  lemma OrderKeepsCount(p: Project, plan: Plan)
    ensures multiset(Ordered(p, plan)) == multiset(plan)
  {
    forall x: PlannedChange ensures multiset(Ordered(p, plan))[x] == multiset(plan)[x] {
      OfRankCounts(p, plan, 0, x);
      OfRankCounts(p, plan, 1, x);
      OfRankCounts(p, plan, 2, x);
    }
  }

  // ---- Guard --------------------------------------------------------------------------

  /** `_forbidden_run_state_paths`. */
  ghost predicate IsForbidden(p: Project, f: Path) {
    || (exists i :: 0 <= i < |RunStates.RUN_STATE_SOURCE_LOCATIONS|
                    && f == p.root + RunStates.RUN_STATE_SOURCE_LOCATIONS[i].path)
    || p.source == Some(f)
  }

  function Forbidden(p: Project): (r: seq<Path>)
    ensures forall f :: f in r <==> IsForbidden(p, f)
  {
    var locations := RunStates.RUN_STATE_SOURCE_LOCATIONS;
    var r := [p.root + locations[0].path, p.root + locations[1].path, p.root + locations[2].path]
             + (if p.source.Some? then [p.source.value] else []);
    assert |locations| == 3;
    assert forall i :: 0 <= i < |locations| ==> r[i] == p.root + locations[i].path;
    r
  }

  predicate IsSafeTarget(p: Project, target: Path) {
    IsWithin(target, p.root) && forall f :: f in Forbidden(p) ==> !IsWithin(target, f)
  }

  /** `_guard_all` raises nothing. */
  predicate AllSafe(p: Project, plan: Plan) { forall i :: 0 <= i < |plan| ==> IsSafeTarget(p, plan[i].path) }

  /** The whole-plan guard, target by target. */
  method GuardAll(p: Project, plan: Plan) returns (safe: bool)
    ensures safe == AllSafe(p, plan)
  {
    var forbidden := Forbidden(p);
    for i := 0 to |plan|
      invariant AllSafe(p, plan[..i])
    {
      var target := plan[i].path;
      if !IsWithin(target, p.root) {
        return false;
      }
      for k := 0 to |forbidden|
        invariant forall m :: 0 <= m < k ==> !IsWithin(target, forbidden[m])
      {
        if IsWithin(target, forbidden[k]) {
          return false;
        }
      }
      assert plan[..i + 1] == plan[..i] + [plan[i]];
    }
    assert plan[..|plan|] == plan;
    return true;
  }

  // ---- Effect -------------------------------------------------------------------------

  function Changed(disk: Disk, change: PlannedChange): Disk {
    if change.newText.None? then disk - {change.path} else disk[change.path := Text(change.newText.value)]
  }

  /** The disk once every change has landed, in this order. */
  function After(disk: Disk, changes: Plan): Disk {
    if changes == [] then disk else Changed(After(disk, changes[..|changes| - 1]), changes[|changes| - 1])
  }

  lemma AfterStep(disk: Disk, changes: Plan, k: nat)
    requires k < |changes|
    ensures After(disk, changes[..k + 1]) == Changed(After(disk, changes[..k]), changes[k])
  {
    assert changes[..k + 1][..k] == changes[..k];
  }

  /** Change `k` meets nothing in its way. */
  predicate GoesIn(before: Disk, changes: Plan, k: nat)
    requires k < |changes|
  {
    !IsObstructed(After(before, changes[..k]), changes[k].path)
  }

  /** Where applying in order stops for good: the first change something is in the way of. */
  function FirstObstructed(before: Disk, changes: Plan, from: nat := 0): (r: Option<nat>)
    requires from <= |changes|
    ensures r.Some? ==> from <= r.value < |changes| && !GoesIn(before, changes, r.value)
    ensures forall k :: from <= k < (if r.Some? then r.value else |changes|) ==> GoesIn(before, changes, k)
    decreases |changes| - from
  {
    if from == |changes| then None
    else if !GoesIn(before, changes, from) then Some(from)
    else FirstObstructed(before, changes, from + 1)
  }

  /** `mkstemp(dir=parent, prefix=f".{name}.", suffix=".tmp")`. */
  function TempName(name: string, token: string): string { "." + name + "." + token + ".tmp" }

  function TempOf(target: Path, token: string): Path {
    if target == [] then [TempName("", token)]
    else target[..|target| - 1] + [TempName(target[|target| - 1], token)]
  }

  /** `mkstemp` picks a name that nothing has yet. */
  ghost predicate IsFresh(disk: Disk, temp: Path) { temp !in disk && !IsDirectory(disk, temp) }

  /** So do the names of a whole run. */
  ghost predicate PicksFreshNames(token: (Path, Disk) -> string) {
    forall target, d {:trigger token(target, d)} :: IsFresh(d, TempOf(target, token(target, d)))
  }

  /** The first `k` changes have landed whole, the rest not at all, and at most one temporary
      file, beside the target of the next change, exists besides. */
  ghost predicate IsAfterFirst(before: Disk, changes: Plan, k: nat, d: Disk) {
    k <= |changes|
    && var done := After(before, changes[..k]);
       d == done
       || (k < |changes| && changes[k].newText.Some?
           && exists token :: HasSomeTemp(d, done, TempOf(changes[k].path, token)))
  }

  ghost predicate IsIntermediate(before: Disk, changes: Plan, d: Disk) {
    exists k: nat :: IsAfterFirst(before, changes, k, d)
  }

  /** The apply failed at some change, because something was in its way or a system call
      failed: the disk stands between that one and the next, with no temporary file left when
      the clean-up worked. */
  ghost predicate StoppedAt(before: Disk, changes: Plan, error: ApplyError, d: Disk, cleaned: bool, failed: bool) {
    exists k: nat ::
      && IsAfterFirst(before, changes, k, d)
      && k < |changes| && error == IoFailed(changes[k].path)
      && (forall m :: 0 <= m < k ==> GoesIn(before, changes, m))
      && (GoesIn(before, changes, k) ==> failed)
      && (cleaned ==> d == After(before, changes[..k]))
  }

  ghost predicate SomeFails(fails: nat -> bool) { exists n :: fails(n) }

  /** Where no system call fails by itself, the stop is decided by the disk and the plan. */
  lemma StoppedIsObstructed(before: Disk, changes: Plan, error: ApplyError, d: Disk)
    requires StoppedAt(before, changes, error, d, true, false)
    ensures
      var k := FirstObstructed(before, changes);
      k.Some? && d == After(before, changes[..k.value]) && error == IoFailed(changes[k.value].path)
  {
  }

  ghost predicate LeavesTemp(d: Disk, done: Disk, change: PlannedChange, token: string) {
    change.newText.Some? && HasSomeTemp(d, done, TempOf(change.path, token))
  }

  lemma StopIsAt(before: Disk, changes: Plan, i: nat, d: Disk, token: string, cleaned: bool, failed: bool)
    requires i < |changes| && (forall m :: 0 <= m < i ==> GoesIn(before, changes, m))
    requires GoesIn(before, changes, i) ==> failed
    requires
      var done := After(before, changes[..i]);
      (d == done || LeavesTemp(d, done, changes[i], token)) && (cleaned ==> d == done)
    ensures StoppedAt(before, changes, IoFailed(changes[i].path), d, cleaned, failed)
  {
    assert IsAfterFirst(before, changes, i, d);
  }

  lemma PathsStep(changes: Plan, i: nat)
    requires i < |changes|
    ensures PathsOf(changes[..i + 1]) == PathsOf(changes[..i]) + [changes[i].path]
  {
    assert changes[..i + 1] == changes[..i] + [changes[i]];
  }

  lemma StepIsIntermediate(before: Disk, changes: Plan, i: nat, d: Disk, token: string)
    requires i < |changes|
    requires
      var done := After(before, changes[..i]);
      d == Changed(done, changes[i]) || LeavesTemp(d, done, changes[i], token)
    ensures IsIntermediate(before, changes, d)
  {
    AfterStep(before, changes, i);
    assert IsAfterFirst(before, changes, i, d) || IsAfterFirst(before, changes, i + 1, d);
  }

  lemma OrderKeepsSafety(p: Project, plan: Plan)
    ensures AllSafe(p, Ordered(p, plan)) <==> AllSafe(p, plan)
  {
    OrderedIs(p, plan);
    var ordered := Ordered(p, plan);
    assert forall i :: 0 <= i < |plan| ==> plan[i] in ordered;
    assert forall i :: 0 <= i < |ordered| ==> ordered[i] in plan;
  }

  ghost predicate HasTemp(d: Disk, done: Disk, temp: Path, text: string) {
    IsFresh(done, temp) && d == done[temp := Text(text)]
  }

  ghost predicate HasSomeTemp(d: Disk, done: Disk, temp: Path) { exists text :: HasTemp(d, done, temp, text) }

  datatype ApplyError = Unsafe | IoFailed(path: Path)

  /** The disk as the write site changes it. */
  class WriteSite {
    var files: Disk
    var operations: nat
    ghost var seen: set<Disk>  // every disk a crash could leave

    constructor (files: Disk)
      ensures this.files == files && operations == 0 && seen == {}
    {
      this.files := files;
      operations := 0;
      seen := {};
    }

    /** One system call: whether it raises `OSError`. */
    method Attempt(fails: nat -> bool) returns (ok: bool)
      modifies this`operations
      ensures operations == old(operations) + 1 && ok == !fails(old(operations))
      ensures !ok ==> SomeFails(fails)
    {
      ok := !fails(operations);
      operations := operations + 1;
    }

    ghost method Record()
      modifies this`seen
      ensures seen == old(seen) + {files}
    {
      seen := seen + {files};
    }

    /** The temporary file, beside a disk that is otherwise `done`. */
    method PutTemp(ghost done: Disk, temp: Path, text: string)
      requires IsFresh(done, temp) && (files == done || HasSomeTemp(files, done, temp))
      modifies this`files, this`seen
      ensures HasTemp(files, done, temp, text) && seen == old(seen) + {files}
    {
      files := files[temp := Text(text)];
      assert files == done[temp := Text(text)];
      Record();
    }

    /** `handle.write` and `flush`: the text reaches the temporary file in pieces of any size. */
    method WriteOut(ghost done: Disk, temp: Path, text: string, fails: nat -> bool) returns (ok: bool)
      requires HasTemp(files, done, temp, "")
      modifies this
      ensures ok ==> HasTemp(files, done, temp, text)
      ensures !ok ==> HasSomeTemp(files, done, temp) && SomeFails(fails)
      ensures operations >= old(operations) && old(seen) <= seen
      ensures forall d :: d in seen && d !in old(seen) ==> HasSomeTemp(d, done, temp)
    {
      var written := 0;
      while written < |text|
        invariant written <= |text| && HasTemp(files, done, temp, text[..written])
        invariant operations >= old(operations) && old(seen) <= seen
        invariant forall d :: d in seen && d !in old(seen) ==> HasSomeTemp(d, done, temp)
      {
        ok := Attempt(fails);
        if !ok {
          return;
        }
        var next :| written < next <= |text|;
        written := next;
        PutTemp(done, temp, text[..written]);
      }
      assert text[..written] == text;
      return true;
    }

    /** `_cleanup_temps`, which swallows its own failure. */
    method CleanUp(ghost done: Disk, temp: Path, fails: nat -> bool)
      requires HasSomeTemp(files, done, temp)
      modifies this`files, this`operations
      ensures operations == old(operations) + 1
      ensures files == if fails(old(operations)) then old(files) else done
    {
      var ok := Attempt(fails);
      if ok {
        files := files - {temp};
        assert files == done;
      }
    }

    /** `os.replace`: one atomic step. */
    method Swap(ghost done: Disk, temp: Path, target: Path, text: string)
      requires HasTemp(files, done, temp, text)
      modifies this`files, this`seen
      ensures files == done[target := Text(text)] && seen == old(seen) + {files}
    {
      files := (files - {temp})[target := Text(text)];
      assert files == done[target := Text(text)];
      Record();
    }

    /** `_atomic_replace` of one file; `token` is the name `mkstemp` picks. `mkdir` finds a
        file in the way of a directory, `os.replace` a directory in the place of the file. */
    method AtomicReplace(target: Path, text: string, fails: nat -> bool, token: string) returns (ok: bool)
      requires IsFresh(files, TempOf(target, token))
      modifies this
      ensures ok ==> !IsObstructed(old(files), target) && files == old(files)[target := Text(text)]
      ensures !ok ==> files == old(files) || HasSomeTemp(files, old(files), TempOf(target, token))
      ensures operations > old(operations)
      ensures !ok && !fails(operations - 1) ==> files == old(files)
      ensures !ok ==> IsObstructed(old(files), target) || SomeFails(fails)
      ensures old(seen) <= seen
      ensures forall d :: d in seen && d !in old(seen) ==>
                d == old(files)[target := Text(text)] || HasSomeTemp(d, old(files), TempOf(target, token))
    {
      var temp := TempOf(target, token);
      ghost var done := files;
      var underFile, directory := IsUnderFile(files, target), IsDirectory(files, target);
      ok := Attempt(fails);  // mkdir and mkstemp
      if !ok || underFile {
        return false;
      }
      PutTemp(done, temp, "");
      ok := WriteOut(done, temp, text, fails);
      if ok {
        ok := Attempt(fails);  // fsync
      }
      if ok {
        ok := Attempt(fails);  // chmod and replace
      }
      if !ok || directory {
        CleanUp(done, temp, fails);
        return false;
      }
      Swap(done, temp, target, text);
    }

    /** One change of the plan. */
    method ApplyOne(change: PlannedChange, fails: nat -> bool, token: string) returns (ok: bool)
      requires IsFresh(files, TempOf(change.path, token))
      modifies this
      ensures ok ==> !IsObstructed(old(files), change.path) && files == Changed(old(files), change)
      ensures !ok ==> files == old(files) || LeavesTemp(files, old(files), change, token)
      ensures operations > old(operations)
      ensures !ok && !fails(operations - 1) ==> files == old(files)
      ensures !ok ==> IsObstructed(old(files), change.path) || SomeFails(fails)
      ensures old(seen) <= seen
      ensures forall d :: d in seen && d !in old(seen) ==>
                d == Changed(old(files), change) || LeavesTemp(d, old(files), change, token)
    {
      if change.newText.None? {
        var obstructed := IsObstructed(files, change.path);
        ok := Attempt(fails);
        if !ok || obstructed {
          return false;
        }
        files := files - {change.path};
        Record();
      } else {
        ok := AtomicReplace(change.path, change.newText.value, fails, token);
      }
    }

    /** The loop of `apply_changes`, over a plan already in order. */
    method ApplyInOrder(changes: Plan, fails: nat -> bool, token: (Path, Disk) -> string)
      returns (r: Result<seq<Path>, ApplyError>)
      requires PicksFreshNames(token)
      modifies this
      ensures r.Ok? ==>
                FirstObstructed(old(files), changes).None?
                && files == After(old(files), changes) && r.value == PathsOf(changes)
      ensures r.Fail? ==> StoppedAt(old(files), changes, r.error, files, !fails(LastCall()), SomeFails(fails))
      ensures forall d :: d in seen ==> d in old(seen) || IsIntermediate(old(files), changes, d)
    {
      var written: seq<Path> := [];
      for i := 0 to |changes|
        invariant written == PathsOf(changes[..i])
        invariant files == After(old(files), changes[..i])
        invariant forall m :: 0 <= m < i ==> GoesIn(old(files), changes, m)
        invariant forall d :: d in seen ==> d in old(seen) || IsIntermediate(old(files), changes, d)
      {
        ghost var done, known := files, seen;
        ghost var name := token(changes[i].path, files);
        var ok := ApplyOne(changes[i], fails, token(changes[i].path, files));
        forall d | d in seen && d !in known ensures IsIntermediate(old(files), changes, d) {
          StepIsIntermediate(old(files), changes, i, d, name);
        }
        if !ok {
          StopIsAt(old(files), changes, i, files, name, !fails(LastCall()), SomeFails(fails));
          return Fail(IoFailed(changes[i].path));
        }
        AfterStep(old(files), changes, i);
        PathsStep(changes, i);
        written := written + [changes[i].path];
      }
      assert changes[..|changes|] == changes;
      return Ok(written);
    }

    /** `apply_changes`: `fails` says which system calls raise, `token` which names `mkstemp`
        picks. Nothing is touched for an unsafe plan. Otherwise the disk only ever holds the
        first changes whole and the rest not at all, beside one temporary file at most; a
        failure stops there, and leaves the temporary only if removing it failed too. */
    method ApplyChanges(p: Project, plan: Plan, fails: nat -> bool, token: (Path, Disk) -> string)
      returns (r: Result<seq<Path>, ApplyError>)
      requires PicksFreshNames(token)
      modifies this
      ensures r == Fail(Unsafe) <==> !AllSafe(p, plan)
      ensures r == Fail(Unsafe) ==> files == old(files) && seen == old(seen)
      ensures r.Ok? ==>
                FirstObstructed(old(files), Ordered(p, plan)).None?
                && files == After(old(files), Ordered(p, plan)) && r.value == PathsOf(Ordered(p, plan))
      ensures r.Fail? && r.error.IoFailed? ==>
                StoppedAt(old(files), Ordered(p, plan), r.error, files, !fails(LastCall()), SomeFails(fails))
      ensures forall d :: d in seen ==> d in old(seen) || IsIntermediate(old(files), Ordered(p, plan), d)
    {
      OrderKeepsSafety(p, plan);
      var ordered := Ordered(p, plan);
      var safe := GuardAll(p, ordered);
      if !safe {
        return Fail(Unsafe);
      }
      r := ApplyInOrder(ordered, fails, token);
    }

    /** The number of the last system call. */
    function LastCall(): nat
      reads this
    {
      if operations == 0 then 0 else operations - 1
    }
  }

  function PathsOf(changes: Plan): seq<Path> { seq(|changes|, i requires 0 <= i < |changes| => changes[i].path) }
}
