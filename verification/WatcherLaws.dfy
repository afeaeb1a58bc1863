/** What every interleaving of the watcher keeps: the debounce contract, and what stopping
    does and does not guarantee. */
module WatcherLaws {
  import opened Common
  import opened Watcher

  // ---- Histories ----------------------------------------------------------------------

  predicate About(e: Event, path: string) { e.Dropped? || e.path == path }

  /** The last thing that happened to a path. */
  function LastAbout(trace: seq<Event>, path: string): Option<Event> {
    if trace == [] then None
    else if About(trace[|trace| - 1], path) then Some(trace[|trace| - 1])
    else LastAbout(trace[..|trace| - 1], path)
  }

  /** Where the next thing that happened to a path stands, from position `i` on. */
  function NextIndex(trace: seq<Event>, path: string, i: nat): (k: nat)
    requires i <= |trace|
    ensures i <= k <= |trace|
    decreases |trace| - i
  {
    if i == |trace| || About(trace[i], path) then i else NextIndex(trace, path, i + 1)
  }

  lemma {:induction false} NextIndexIs(trace: seq<Event>, path: string, i: nat)
    requires i <= |trace|
    ensures forall m :: i <= m < NextIndex(trace, path, i) ==> !About(trace[m], path)
    ensures NextIndex(trace, path, i) < |trace| ==> About(trace[NextIndex(trace, path, i)], path)
    decreases |trace| - i
  {
    if i < |trace| && !About(trace[i], path) {
      NextIndexIs(trace, path, i + 1);
    }
  }

  function NextAbout(trace: seq<Event>, path: string, i: nat): Option<Event>
    requires i <= |trace|
  {
    var k := NextIndex(trace, path, i);
    if k < |trace| then Some(trace[k]) else None
  }

  /** Each emitted event carries its path's latest coalesced change, at least one window
      after it, with nothing about the path in between. */
  ghost predicate EmissionsOk(trace: seq<Event>) {
    forall i :: 0 <= i < |trace| && trace[i].Emitted? ==> IsDue(LastAbout(trace[..i], trace[i].path), trace[i])
  }

  ghost predicate IsDue(last: Option<Event>, emitted: Event)
    requires emitted.Emitted?
  {
    last.Some? && last.value.Coalesced? && last.value.change == emitted.change
    && emitted.at >= last.value.at + WINDOW
  }

  lemma LastOfAppended(trace: seq<Event>, e: Event, path: string)
    ensures LastAbout(trace + [e], path) == if About(e, path) then Some(e) else LastAbout(trace, path)
  {
    assert (trace + [e])[..|trace|] == trace;
  }

  lemma AppendedOk(trace: seq<Event>, e: Event)
    requires EmissionsOk(trace) && (e.Emitted? ==> IsDue(LastAbout(trace, e.path), e))
    ensures EmissionsOk(trace + [e])
  {
    var longer := trace + [e];
    forall i | 0 <= i < |longer| && longer[i].Emitted?
      ensures IsDue(LastAbout(longer[..i], longer[i].path), longer[i])
    {
      assert longer[..i] == if i < |trace| then trace[..i] else trace;
    }
  }

  // ---- The invariant ------------------------------------------------------------------

  /** A path's timer stands for its latest coalesced change. */
  ghost predicate IsArmed(s: State, path: string)
    requires path in s.timers
  {
    && path in s.pending && s.timers[path] < |s.handles|
    && s.handles[s.timers[path]].path == path
    && LastAbout(s.trace, path).Some? && LastAbout(s.trace, path).value.Coalesced?
    && LastAbout(s.trace, path).value.change == s.pending[path]
    && s.handles[s.timers[path]].due == LastAbout(s.trace, path).value.at + WINDOW
    && (s.busy != Flushing(path) && !s.stopped ==> s.handles[s.timers[path]].live)
    && (s.busy == Flushing(path) ==> !s.handles[s.timers[path]].live && s.handles[s.timers[path]].due <= s.now)
  }

  ghost predicate HandlesAreArmed(s: State) {
    forall h :: 0 <= h < |s.handles| && s.handles[h].live && !s.closed ==>
      s.handles[h].path in s.timers && s.timers[s.handles[h].path] == h
  }

  ghost predicate Inv(s: State) {
    && s.pending.Keys == s.timers.Keys
    && (forall path :: path in s.timers ==> IsArmed(s, path))
    && (forall path :: LastAbout(s.trace, path).Some? && LastAbout(s.trace, path).value.Coalesced? ==> path in s.timers)
    && HandlesAreArmed(s)
    && (s.busy.Flushing? ==> s.busy.path in s.timers)
    && (s.closed ==> s.busy.Idle?)
    && EmissionsOk(s.trace)
  }

  lemma InitialInv(s: State)
    requires Initial(s)
    ensures Inv(s)
  {
  }

  lemma CoalesceKeeps(s: State, path: string, change: Change)
    requires Inv(s) && s.busy.Idle? && !s.closed
    ensures Inv(CoalesceEffect(s, path, change))
  {
    var t := CoalesceEffect(s, path, change);
    var e := Coalesced(path, change, s.now);
    AppendedOk(s.trace, e);
    forall other: string
      ensures LastAbout(t.trace, other) == if About(e, other) then Some(e) else LastAbout(s.trace, other)
    {
      LastOfAppended(s.trace, e, other);
    }
    forall other | other in t.timers ensures IsArmed(t, other) {
      if other != path {
        assert IsArmed(s, other);
      }
    }
  }

  lemma FlushKeeps(s: State)
    requires Inv(s) && s.busy.Flushing?
    ensures Inv(FlushEffect(s.(busy := Idle), s.busy.path))
  {
    var path := s.busy.path;
    var t := FlushEffect(s.(busy := Idle), path);
    var e := Emitted(path, s.pending[path], s.now);
    assert IsArmed(s, path);
    AppendedOk(s.trace, e);
    forall other: string
      ensures LastAbout(t.trace, other) == if About(e, other) then Some(e) else LastAbout(s.trace, other)
    {
      LastOfAppended(s.trace, e, other);
    }
    forall other | other in t.timers ensures IsArmed(t, other) {
      assert IsArmed(s, other);
    }
    forall h | 0 <= h < |t.handles| && t.handles[h].live && !t.closed
      ensures t.handles[h].path in t.timers && t.timers[t.handles[h].path] == h
    {
      assert s.timers[s.handles[h].path] == h;
    }
  }

  lemma DropKeeps(s: State, t: State)
    requires Inv(s) && s.busy.Idle? && t.busy.Idle?
    requires t.pending == map[] && t.timers == map[] && t.trace == s.trace + [Dropped]
    requires t.closed || forall h :: 0 <= h < |t.handles| ==> !t.handles[h].live
    ensures Inv(t)
  {
    AppendedOk(s.trace, Dropped);
    forall other: string ensures LastAbout(t.trace, other) == Some(Dropped) {
      LastOfAppended(s.trace, Dropped, other);
    }
  }

  lemma DiscardKillsAll(s: State)
    requires Inv(s) && !s.closed
    ensures forall h :: 0 <= h < |s.handles| ==> !DiscardEffect(s).handles[h].live
  {
    forall h | 0 <= h < |s.handles| ensures !DiscardEffect(s).handles[h].live {
      if s.handles[h].live {
        assert s.timers[s.handles[h].path] == h;
      }
    }
  }

  lemma FireKeeps(s: State, h: nat)
    requires Inv(s) && Enabled(s, Fire(h)) && !s.stopped
    ensures Inv(Next(s, Fire(h)))
  {
    var t := Next(s, Fire(h));
    var path := s.handles[h].path;
    assert s.timers[path] == h;
    forall other | other in t.timers ensures IsArmed(t, other) {
      assert IsArmed(s, other);
    }
  }

  /** The steps that touch neither the debounce state nor the history. */
  lemma FrameKeeps(s: State, t: State)
    requires Inv(s) && t.now >= s.now && (s.stopped ==> t.stopped) && (s.closed ==> t.closed)
    requires t.pending == s.pending && t.timers == s.timers && t.handles == s.handles && t.trace == s.trace
    requires t.busy == s.busy || (s.busy.Idle? && t.busy.Coalescing?)
    requires t.closed ==> t.busy.Idle?
    ensures Inv(t)
  {
    forall path | path in t.timers ensures IsArmed(t, path) {
      assert IsArmed(s, path);
    }
  }

  lemma CancelKeeps(s: State, h: nat)
    requires Inv(s) && s.stopped && h < |s.handles| && s.handles[h].live && s.busy.Idle? && !s.closed
    ensures Inv(s.(handles := Cancelled(s.handles, h)))
  {
    var t := s.(handles := Cancelled(s.handles, h));
    forall path | path in t.timers ensures IsArmed(t, path) {
      assert IsArmed(s, path);
    }
  }

  /** Every step of every thread keeps the invariant. */
  lemma StepKeeps(s: State, step: Step)
    requires Inv(s) && Enabled(s, step)
    ensures Inv(Next(s, step))
  {
    var t := Next(s, step);
    match step {
      case Run =>
        if s.queue[0].DiscardCall? {
          DiscardKillsAll(s);
          DropKeeps(s, t);
        } else {
          FrameKeeps(s, t);
        }
      case EndCoalesce =>
        FrameKeepsIdle(s);
        CoalesceKeeps(s.(busy := Idle), s.busy.path, s.busy.change);
      case Fire(h) =>
        if s.stopped { CancelKeeps(s, h); } else { FireKeeps(s, h); }
      case EndFlush => FlushKeeps(s);
      case HandBack =>
        if s.closed { DropKeeps(s, t); } else { FrameKeeps(s, t); }
      case StopOnLoop =>
        DiscardKillsAll(s);
        DropKeeps(s, t);
      case Tick(_) => FrameKeeps(s, t);
      case Check(_, _) => FrameKeeps(s, t);
      case Post(_) => FrameKeeps(s, t);
      case Latch => FrameKeeps(s, t);
      case CloseLoop => FrameKeeps(s, t);
    }
  }

  lemma FrameKeepsIdle(s: State)
    requires Inv(s) && s.busy.Coalescing?
    ensures Inv(s.(busy := Idle))
  {
    forall path | path in s.timers ensures IsArmed(s.(busy := Idle), path) {
      assert IsArmed(s, path);
    }
  }

  /** So every reachable state has it. */
  lemma {:induction false} RunKeeps(s: State, steps: seq<Step>)
    requires Inv(s) && IsRun(s, steps)
    ensures Inv(After(s, steps))
    decreases |steps|
  {
    if steps != [] {
      StepKeeps(s, steps[0]);
      RunKeeps(Next(s, steps[0]), steps[1..]);
    }
  }

  // ---- The debounce contract ----------------------------------------------------------

  /** After any run from the start: pending and timers name the same paths, and every event
      that was emitted had been due. */
  lemma DebounceContract(s: State, steps: seq<Step>)
    requires Initial(s) && IsRun(s, steps)
    ensures
      var t := After(s, steps);
      t.pending.Keys == t.timers.Keys && EmissionsOk(t.trace)
  {
    InitialInv(s);
    RunKeeps(s, steps);
  }

  datatype Fate = Superseded | EmittedOnce(at: int) | DroppedByStop | StillPending

  /** What became of the coalesced change at position `j`. */
  function FateOf(trace: seq<Event>, j: nat): Fate
    requires j < |trace| && trace[j].Coalesced?
  {
    match NextAbout(trace, trace[j].path, j + 1)
    case None => StillPending
    case Some(Coalesced(_, _, _)) => Superseded
    case Some(Emitted(_, _, at)) => EmittedOnce(at)
    case Some(Dropped) => DroppedByStop
  }

  lemma {:induction false} LastSkips(trace: seq<Event>, path: string, j: nat)
    requires j < |trace| && About(trace[j], path) && forall m :: j < m < |trace| ==> !About(trace[m], path)
    ensures LastAbout(trace, path) == Some(trace[j])
  {
    if j < |trace| - 1 {
      LastSkips(trace[..|trace| - 1], path, j);
    }
  }

  /** Only a stop hands a cleanup over, and only a cleanup drops. */
  ghost predicate OnlyStopsDrop(s: State) { s.stops > 0 || DiscardCall in s.queue || Dropped in s.trace ==> s.stopped }

  lemma StepKeepsDrops(s: State, step: Step)
    requires OnlyStopsDrop(s) && Enabled(s, step)
    ensures OnlyStopsDrop(Next(s, step))
  {
  }

  lemma {:induction false} RunKeepsDrops(s: State, steps: seq<Step>)
    requires OnlyStopsDrop(s) && IsRun(s, steps)
    ensures OnlyStopsDrop(After(s, steps))
    decreases |steps|
  {
    if steps != [] {
      StepKeepsDrops(s, steps[0]);
      RunKeepsDrops(Next(s, steps[0]), steps[1..]);
    }
  }

  /** Every coalesced change has exactly one fate. Emitted, it went out as it was, at least
      one window later; dropped, the watcher was stopped; still pending, it is what `_pending`
      holds, under one live timer due one window after it unless the watcher was stopped. */
  lemma EveryChangeHasItsFate(s: State, steps: seq<Step>, j: nat)
    requires Initial(s) && IsRun(s, steps)
    requires j < |After(s, steps).trace| && After(s, steps).trace[j].Coalesced?
    ensures
      var t := After(s, steps);
      var e := t.trace[j];
      match FateOf(t.trace, j)
      case EmittedOnce(at) =>
        at >= e.at + WINDOW && NextAbout(t.trace, e.path, j + 1) == Some(Emitted(e.path, e.change, at))
      case StillPending =>
        && e.path in t.pending && t.pending[e.path] == e.change
        && e.path in t.timers && t.timers[e.path] < |t.handles|
        && t.handles[t.timers[e.path]].due == e.at + WINDOW
        && (!t.stopped && t.busy != Flushing(e.path) ==> t.handles[t.timers[e.path]].live)
      case Superseded => true
      case DroppedByStop => t.stopped
  {
    InitialInv(s);
    RunKeeps(s, steps);
    RunKeepsDrops(s, steps);
    FateInState(After(s, steps), j);
  }

  lemma FateInState(t: State, j: nat)
    requires Inv(t) && OnlyStopsDrop(t) && j < |t.trace| && t.trace[j].Coalesced?
    ensures
      var e := t.trace[j];
      match FateOf(t.trace, j)
      case EmittedOnce(at) =>
        at >= e.at + WINDOW && NextAbout(t.trace, e.path, j + 1) == Some(Emitted(e.path, e.change, at))
      case StillPending =>
        && e.path in t.pending && t.pending[e.path] == e.change
        && e.path in t.timers && t.timers[e.path] < |t.handles|
        && t.handles[t.timers[e.path]].due == e.at + WINDOW
        && (!t.stopped && t.busy != Flushing(e.path) ==> t.handles[t.timers[e.path]].live)
      case Superseded => true
      case DroppedByStop => t.stopped
  {
    var e := t.trace[j];
    var k := NextIndex(t.trace, e.path, j + 1);
    NextIndexIs(t.trace, e.path, j + 1);
    if k == |t.trace| {
      LastSkips(t.trace, e.path, j);
      assert IsArmed(t, e.path);
    } else if t.trace[k].Emitted? {
      LastSkips(t.trace[..k], e.path, j);
      assert IsDue(LastAbout(t.trace[..k], e.path), t.trace[k]);
    }
  }

  /** No two changes, of one path or of two, end in the same emitted event. */
  lemma EmittedForOneChange(trace: seq<Event>, j: nat, k: nat)
    requires j < k < |trace| && trace[j].Coalesced? && trace[k].Coalesced?
    requires FateOf(trace, j).EmittedOnce? && FateOf(trace, k).EmittedOnce?
    ensures NextIndex(trace, trace[j].path, j + 1) != NextIndex(trace, trace[k].path, k + 1)
  {
    NextIndexIs(trace, trace[j].path, j + 1);
    NextIndexIs(trace, trace[k].path, k + 1);
    assert trace[j].path == trace[k].path ==> About(trace[k], trace[j].path);
  }

  // ---- Stopping -----------------------------------------------------------------------

  function Emissions(trace: seq<Event>): nat {
    if trace == [] then 0
    else Emissions(trace[..|trace| - 1]) + if trace[|trace| - 1].Emitted? then 1 else 0
  }

  lemma EmissionsAppend(trace: seq<Event>, e: Event)
    ensures Emissions(trace + [e]) == Emissions(trace) + if e.Emitted? then 1 else 0
  {
    assert (trace + [e])[..|trace|] == trace;
  }

  /** What a stopped watcher can still emit in one step: the flush it was in the middle of. */
  lemma StoppedStep(s: State, step: Step)
    requires s.stopped && Enabled(s, step)
    ensures
      var t := Next(s, step);
      && t.stopped && (t.busy.Flushing? ==> s.busy.Flushing?)
      && Emissions(t.trace) + (if t.busy.Flushing? then 1 else 0)
         <= Emissions(s.trace) + (if s.busy.Flushing? then 1 else 0)
      && Emissions(s.trace) <= Emissions(t.trace)
  {
    var t := Next(s, step);
    if t.trace != s.trace {
      EmissionsAppend(s.trace, t.trace[|t.trace| - 1]);
      assert t.trace == s.trace + [t.trace[|t.trace| - 1]];
    }
  }

  lemma {:induction false} StoppedRun(s: State, steps: seq<Step>)
    requires s.stopped && IsRun(s, steps)
    ensures
      var t := After(s, steps);
      Emissions(s.trace) <= Emissions(t.trace) <= Emissions(s.trace) + (if s.busy.Flushing? then 1 else 0)
    decreases |steps|
  {
    if steps != [] {
      StoppedStep(s, steps[0]);
      StoppedRun(Next(s, steps[0]), steps[1..]);
    }
  }

  ghost predicate StaysSilent(s: State) {
    forall steps | IsRun(s, steps) :: Emissions(After(s, steps).trace) == Emissions(s.trace)
  }

  /** Once the latch is set no event is emitted, whatever dispatches, queued callbacks, due
      timers and deferred cleanups remain, exactly when no flush had passed its guard; such
      a flush emits one event more. */
  lemma StopIsFinalUnlessFlushing(s: State)
    requires Inv(s) && s.stopped
    ensures StaysSilent(s) <==> !s.busy.Flushing?
  {
    if s.busy.Flushing? {
      var t := Next(s, EndFlush);
      assert After(t, []) == t && IsRun(t, []);
      assert [EndFlush][0] == EndFlush && [EndFlush][1..] == [];
      assert IsRun(s, [EndFlush]) && After(s, [EndFlush]) == t;
      EmissionsAppend(s.trace, Emitted(s.busy.path, s.pending[s.busy.path], s.now));
    } else {
      forall steps | IsRun(s, steps) ensures Emissions(After(s, steps).trace) == Emissions(s.trace) {
        StoppedRun(s, steps);
      }
    }
  }

  /** A stop on the loop thread is always final: no flush can be under way there. */
  lemma StopOnLoopIsFinal(s: State)
    requires Inv(s) && Enabled(s, StopOnLoop)
    ensures StaysSilent(Next(s, StopOnLoop)) && Next(s, StopOnLoop).pending == map[]
  {
    StepKeeps(s, StopOnLoop);
    StopIsFinalUnlessFlushing(Next(s, StopOnLoop));
  }

  lemma RunCons(s: State, step: Step, rest: seq<Step>)
    requires Enabled(s, step) && IsRun(Next(s, step), rest)
    ensures IsRun(s, [step] + rest) && After(s, [step] + rest) == After(Next(s, step), rest)
  {
    assert ([step] + rest)[1..] == rest;
  }

  /** The state in which the change of one path is armed and nothing else happened. */
  function Armed(s: State, path: string, change: Change): State {
    s.(pending := map[path := change], timers := map[path := 0], handles := [Handle(path, s.now + WINDOW, true)],
       trace := [Coalesced(path, change, s.now)])
  }

  lemma DispatchArms(s: State, path: string, change: Change)
    requires Initial(s)
    ensures
      var steps := [Check(path, change), Post(0), Run, EndCoalesce];
      IsRun(s, steps) && After(s, steps) == Armed(s, path, change)
  {
    var s1 := Next(s, Check(path, change));
    var s2 := s.(queue := [CoalesceCall(path, change)]);
    assert Next(s1, Post(0)) == s2;
    var s3 := s.(busy := Coalescing(path, change));
    assert Next(s2, Run) == s3;
    assert Next(s3, EndCoalesce) == Armed(s, path, change);
    RunCons(s3, EndCoalesce, []);
    RunCons(s2, Run, [EndCoalesce]);
    RunCons(s1, Post(0), [Run, EndCoalesce]);
    RunCons(s, Check(path, change), [Post(0), Run, EndCoalesce]);
    assert [Check(path, change)] + [Post(0), Run, EndCoalesce] == [Check(path, change), Post(0), Run, EndCoalesce];
    assert [Post(0)] + [Run, EndCoalesce] == [Post(0), Run, EndCoalesce] && [Run] + [EndCoalesce] == [Run, EndCoalesce];
  }

  /** From there, a timer that is firing when another thread stops the watcher: `stop` sets the
      latch, hands its cleanup to the loop and returns, and the event still goes out after
      that. Stopping is not final in every interleaving. */
  lemma StopDuringFlush(s: State, path: string, change: Change)
    requires Initial(s)
    ensures
      var steps := [Tick(s.now + WINDOW), Fire(0), Latch, HandBack];
      var armed := Armed(s, path, change);
      && IsRun(armed, steps) && After(armed, steps).stopped && After(armed, steps).stops == 0
      && After(armed, steps).trace == [Coalesced(path, change, s.now)]
      && Enabled(After(armed, steps), EndFlush)
      && Next(After(armed, steps), EndFlush).trace
         == [Coalesced(path, change, s.now), Emitted(path, change, s.now + WINDOW)]
  {
    var s4 := Armed(s, path, change);
    var s5 := s4.(now := s.now + WINDOW);
    var s6 := s5.(handles := [Handle(path, s.now + WINDOW, false)], busy := Flushing(path));
    var s7 := s6.(stopped := true, stops := 1);
    var s8 := s6.(stopped := true, queue := [DiscardCall]);
    assert Next(s5, Fire(0)) == s6;
    assert Next(s7, HandBack) == s8;
    RunCons(s7, HandBack, []);
    RunCons(s6, Latch, [HandBack]);
    RunCons(s5, Fire(0), [Latch, HandBack]);
    RunCons(s4, Tick(s.now + WINDOW), [Fire(0), Latch, HandBack]);
    assert [Latch] + [HandBack] == [Latch, HandBack] && [Fire(0)] + [Latch, HandBack] == [Fire(0), Latch, HandBack];
    assert [Tick(s.now + WINDOW)] + [Fire(0), Latch, HandBack] == [Tick(s.now + WINDOW), Fire(0), Latch, HandBack];
    assert After(s4, [Tick(s.now + WINDOW), Fire(0), Latch, HandBack]) == s8;
  }
}
