/** From the watchdog thread to the loop: what is dispatched is coalesced, in posting order. */
module WatcherOrder {
  import opened Common
  import opened Watcher
  import opened WatcherLaws

  type Arrival = (string, Change)

  // ---- What was let through, posted and begun -----------------------------------------

  /** The dispatches that got past the guard, in a run from `s`. */
  ghost function Admitted(s: State, steps: seq<Step>): seq<Arrival>
    requires IsRun(s, steps)
    decreases |steps|
  {
    if steps == [] then []
    else
      AdmittedBy(s, steps[0]) + Admitted(Next(s, steps[0]), steps[1..])
  }

  function AdmittedBy(s: State, step: Step): seq<Arrival> {
    if step.Check? && !s.stopped then [(step.path, step.change)] else []
  }

  /** Those that were taken to the loop, and those that it took: a closed loop takes none. */
  ghost function Handed(s: State, steps: seq<Step>, onlyOpen: bool): seq<Arrival>
    requires IsRun(s, steps)
    decreases |steps|
  {
    if steps == [] then []
    else
      HandedBy(s, steps[0], onlyOpen) + Handed(Next(s, steps[0]), steps[1..], onlyOpen)
  }

  function HandedBy(s: State, step: Step, onlyOpen: bool): seq<Arrival>
    requires Enabled(s, step)
  {
    if step.Post? && !(onlyOpen && s.closed) then [s.dispatches[step.i]] else []
  }

  function CoalescedIn(trace: seq<Event>): seq<Arrival> {
    if trace == [] then []
    else
      var last := trace[|trace| - 1];
      CoalescedIn(trace[..|trace| - 1]) + if last.Coalesced? then [(last.path, last.change)] else []
  }

  /** What was coalesced, and what is being coalesced. */
  function Begun(s: State): seq<Arrival> {
    CoalescedIn(s.trace) + if s.busy.Coalescing? then [(s.busy.path, s.busy.change)] else []
  }

  function Queued(queue: seq<Call>): seq<Arrival> {
    if queue == [] then []
    else (if queue[0].CoalesceCall? then [(queue[0].path, queue[0].change)] else []) + Queued(queue[1..])
  }

  lemma CoalescedAppend(trace: seq<Event>, e: Event)
    ensures CoalescedIn(trace + [e]) == CoalescedIn(trace) + if e.Coalesced? then [(e.path, e.change)] else []
  {
    assert (trace + [e])[..|trace|] == trace;
  }

  lemma {:induction false} QueuedAppend(queue: seq<Call>, call: Call)
    ensures Queued(queue + [call])
            == Queued(queue) + if call.CoalesceCall? then [(call.path, call.change)] else []
  {
    if queue != [] {
      QueuedAppend(queue[1..], call);
      assert (queue + [call])[1..] == queue[1..] + [call];
    }
  }

  // ---- One step -----------------------------------------------------------------------

  predicate IsPrefix<T(==)>(a: seq<T>, b: seq<T>) { |a| <= |b| && a == b[..|a|] }

  /** What was begun is the first part of what was posted; unless the watcher was stopped, the
      rest is queued. */
  ghost predicate InOrder(s: State, posted: seq<Arrival>) {
    IsPrefix(Begun(s), posted) && (!s.stopped ==> Begun(s) + Queued(s.queue) == posted)
  }

  lemma PrefixGrows(a: seq<Arrival>, b: seq<Arrival>, more: seq<Arrival>)
    requires IsPrefix(a, b)
    ensures IsPrefix(a, b + more)
  {
    assert (b + more)[..|a|] == b[..|a|];
  }

  /** Only posting, the start of a coalesce and its end touch the line of arrivals. */
  lemma QuietStep(s: State, step: Step)
    requires Enabled(s, step) && !step.Post? && !step.Run? && !step.EndCoalesce?
    ensures Begun(Next(s, step)) == Begun(s) && (s.stopped ==> Next(s, step).stopped)
    ensures !Next(s, step).stopped && !step.HandBack? ==> Next(s, step).queue == s.queue
    ensures Queued(s.queue + [DiscardCall]) == Queued(s.queue)
  {
    QueuedAppend(s.queue, DiscardCall);
    match step {
      case EndFlush =>
        var path := s.busy.path;
        if path in s.pending {
          CoalescedAppend(s.trace, Emitted(path, s.pending[path], s.now));
        }
      case HandBack =>
        CoalescedAppend(s.trace, Dropped);
      case StopOnLoop =>
        CoalescedAppend(s.trace, Dropped);
      case _ =>
    }
  }

  lemma RunStep(s: State, posted: seq<Arrival>)
    requires Enabled(s, Run) && InOrder(s, posted) && (s.queue[0].DiscardCall? ==> s.stopped)
    ensures InOrder(Next(s, Run), posted)
  {
    if s.stopped {
      CoalescedAppend(s.trace, Dropped);
      assert Begun(Next(s, Run)) == Begun(s);
    } else {
      assert Begun(Next(s, Run)) == Begun(s) + [(s.queue[0].path, s.queue[0].change)];
      OneMoves(Begun(s), (s.queue[0].path, s.queue[0].change), Queued(s.queue[1..]));
    }
  }

  lemma OneMoves(begun: seq<Arrival>, head: Arrival, rest: seq<Arrival>)
    ensures begun + ([head] + rest) == (begun + [head]) + rest
    ensures IsPrefix(begun + [head], (begun + [head]) + rest)
  {
  }

  lemma OrderStep(s: State, step: Step, posted: seq<Arrival>)
    requires Enabled(s, step) && InOrder(s, posted) && OnlyStopsDrop(s)
    ensures InOrder(Next(s, step), posted + HandedBy(s, step, true))
  {
    PrefixGrows(Begun(s), posted, HandedBy(s, step, true));
    assert posted + [] == posted;
    match step {
      case Post(i) =>
        QueuedAppend(s.queue, CoalesceCall(s.dispatches[i].0, s.dispatches[i].1));
      case Run =>
        RunStep(s, posted);
      case EndCoalesce =>
        CoalescedAppend(s.trace, Coalesced(s.busy.path, s.busy.change, s.now));
      case _ =>
        QuietStep(s, step);
    }
  }

  lemma {:induction false} OrderRun(s: State, steps: seq<Step>, posted: seq<Arrival>)
    requires IsRun(s, steps) && InOrder(s, posted) && OnlyStopsDrop(s)
    ensures InOrder(After(s, steps), posted + Handed(s, steps, true))
    decreases |steps|
  {
    if steps == [] {
      assert posted + [] == posted;
    } else {
      OrderStep(s, steps[0], posted);
      StepKeepsDrops(s, steps[0]);
      OrderRun(Next(s, steps[0]), steps[1..], posted + HandedBy(s, steps[0], true));
      Regroup(posted, HandedBy(s, steps[0], true), Handed(Next(s, steps[0]), steps[1..], true));
    }
  }

  lemma Regroup(a: seq<Arrival>, b: seq<Arrival>, c: seq<Arrival>)
    ensures (a + b) + c == a + (b + c)
  {
  }

  // ---- The hand-over ------------------------------------------------------------------

  lemma TakenOut(items: seq<Arrival>, i: nat)
    requires i < |items|
    ensures multiset(items) == multiset(items[..i] + items[i + 1..]) + multiset{items[i]}
  {
    assert items == items[..i] + [items[i]] + items[i + 1..];
  }

  /** One change at a time: past the guard it is held, and taken to the loop it is not. */
  lemma HandedStep(s: State, step: Step)
    requires Enabled(s, step)
    ensures multiset(HandedBy(s, step, false)) + multiset(Next(s, step).dispatches)
            == multiset(s.dispatches) + multiset(AdmittedBy(s, step))
  {
    if step.Post? {
      TakenOut(s.dispatches, step.i);
    }
  }

  lemma Chained(first: multiset<Arrival>, second: multiset<Arrival>, start: multiset<Arrival>,
                middle: multiset<Arrival>, end: multiset<Arrival>, x: multiset<Arrival>, y: multiset<Arrival>)
    requires first + middle == start + x && second + end == middle + y
    ensures (first + second) + end == start + (x + y)
  {
    assert (first + second) + end == first + (second + end);
    assert first + (middle + y) == (first + middle) + y;
    assert (start + x) + y == start + (x + y);
  }

  lemma {:induction false} HandedOnce(s: State, steps: seq<Step>)
    requires IsRun(s, steps)
    ensures multiset(Handed(s, steps, false)) + multiset(After(s, steps).dispatches)
            == multiset(s.dispatches) + multiset(Admitted(s, steps))
    decreases |steps|
  {
    if steps != [] {
      var t, rest := Next(s, steps[0]), steps[1..];
      HandedOnce(t, rest);
      HandedStep(s, steps[0]);
      Chained(multiset(HandedBy(s, steps[0], false)), multiset(Handed(t, rest, false)), multiset(s.dispatches),
              multiset(t.dispatches), multiset(After(t, rest).dispatches),
              multiset(AdmittedBy(s, steps[0])), multiset(Admitted(t, rest)));
    }
  }

  /** From the start, every change that a thread got past the guard is taken to the loop at
      most once, as it is; and what the loop coalesces are the changes that were posted to it,
      in that order and none left out, up to a stop. */
  lemma ChangesArriveInOrder(s: State, steps: seq<Step>)
    requires Initial(s) && IsRun(s, steps)
    ensures
      var t, posted := After(s, steps), Handed(s, steps, true);
      && IsPrefix(CoalescedIn(t.trace), posted)
      && (!t.stopped ==> Begun(t) + Queued(t.queue) == posted)
      && multiset(Handed(s, steps, false)) + multiset(t.dispatches) == multiset(Admitted(s, steps))
      && (!t.closed ==> posted == Handed(s, steps, false))
  {
    OrderFromStart(s, steps);
    HandedOnce(s, steps);
    OpenTakesAll(s, steps);
  }

  lemma OrderFromStart(s: State, steps: seq<Step>)
    requires Initial(s) && IsRun(s, steps)
    ensures
      var t, posted := After(s, steps), Handed(s, steps, true);
      && IsPrefix(CoalescedIn(t.trace), posted)
      && (!t.stopped ==> Begun(t) + Queued(t.queue) == posted)
  {
    OrderRun(s, steps, []);
    BegunIsFirst(After(s, steps), Handed(s, steps, true));
  }

  lemma BegunIsFirst(t: State, posted: seq<Arrival>)
    requires InOrder(t, [] + posted)
    ensures IsPrefix(CoalescedIn(t.trace), posted)
    ensures !t.stopped ==> Begun(t) + Queued(t.queue) == posted
  {
    assert [] + posted == posted;
    assert Begun(t)[..|CoalescedIn(t.trace)|] == CoalescedIn(t.trace);
  }

  lemma {:induction false} OpenTakesAll(s: State, steps: seq<Step>)
    requires IsRun(s, steps)
    ensures s.closed ==> After(s, steps).closed
    ensures !After(s, steps).closed ==> Handed(s, steps, true) == Handed(s, steps, false)
    decreases |steps|
  {
    if steps != [] {
      OpenTakesAll(Next(s, steps[0]), steps[1..]);
    }
  }

  // ---- The window ---------------------------------------------------------------------

  /** A change goes out no sooner than 150 milliseconds after it was coalesced. */
  lemma WindowIsLong(s: State, steps: seq<Step>, j: nat)
    requires Initial(s) && IsRun(s, steps)
    requires j < |After(s, steps).trace| && After(s, steps).trace[j].Coalesced?
    requires FateOf(After(s, steps).trace, j).EmittedOnce?
    ensures FateOf(After(s, steps).trace, j).at >= After(s, steps).trace[j].at + 150
  {
    EveryChangeHasItsFate(s, steps, j);
  }
}
