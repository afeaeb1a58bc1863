/** The debouncing watcher: a thread that dispatches, a loop that coalesces and flushes, and a
    stop that may come from anywhere (file_adapter/watcher_real.py). */
module Watcher {
  import opened Common

  /** `_DEBOUNCE_SECONDS`, in milliseconds. */
  const WINDOW: nat := 150

  datatype Change = Change(kind: string, scope: string)

  /** `call_later`'s handle: live until it is cancelled or has run. */
  datatype Handle = Handle(path: string, due: int, live: bool)

  /** A callback posted with `call_soon_threadsafe`. */
  datatype Call = CoalesceCall(path: string, change: Change) | DiscardCall

  /** What the loop thread is in the middle of: a callback past its `_stopped` guard. */
  datatype Busy = Idle | Coalescing(path: string, change: Change) | Flushing(path: string)

  /** What happened, in order. */
  datatype Event =
    | Coalesced(path: string, change: Change, at: int)
    | Emitted(path: string, change: Change, at: int)
    | Dropped

  datatype State = State(
    stopped: bool,
    closed: bool,                            // the event loop is closed
    now: int,
    pending: map<string, Change>,
    timers: map<string, nat>,                // indices into `handles`
    handles: seq<Handle>,
    queue: seq<Call>,
    dispatches: seq<(string, Change)>,       // on the watchdog thread, past the guard
    stops: nat,                              // off-loop `stop` calls that have only latched
    busy: Busy,
    trace: seq<Event>)

  // ---- The loop thread's callbacks ----------------------------------------------------

  function Cancelled(handles: seq<Handle>, h: nat): seq<Handle> {
    if h < |handles| then handles[h := handles[h].(live := false)] else handles
  }

  /** `_coalesce` past its guard. */
  function CoalesceEffect(s: State, path: string, change: Change): State {
    var handles := if path in s.timers then Cancelled(s.handles, s.timers[path]) else s.handles;
    s.(pending := s.pending[path := change],
       timers := s.timers[path := |handles|],
       handles := handles + [Handle(path, s.now + WINDOW, true)],
       trace := s.trace + [Coalesced(path, change, s.now)])
  }

  /** `_flush` past its guard. */
  function FlushEffect(s: State, path: string): State {
    var popped := s.(timers := s.timers - {path}, pending := s.pending - {path});
    if path !in s.pending then popped
    else popped.(trace := s.trace + [Emitted(path, s.pending[path], s.now)])
  }

  /** `_discard_debounce_state`. */
  function DiscardEffect(s: State): State {
    s.(pending := map[], timers := map[],
       handles := seq(|s.handles|, i requires 0 <= i < |s.handles| =>
                    if i in s.timers.Values then s.handles[i].(live := false) else s.handles[i]),
       trace := s.trace + [Dropped])
  }

  // ---- Interleavings ------------------------------------------------------------------

  /** One step of one thread, or of the clock. */
  datatype Step =
    | Tick(to: int)
    | Check(path: string, change: Change)    // `_dispatch_from_thread` reads the latch
    | Post(i: nat)                           // and later posts to the loop
    | Run                                    // the loop takes a posted callback
    | EndCoalesce
    | Fire(h: nat)                           // the loop takes a due timer
    | EndFlush
    | Latch                                  // `stop` off the loop sets the latch
    | HandBack                               // and later hands the cleanup over
    | StopOnLoop
    | CloseLoop

  predicate Enabled(s: State, step: Step) {
    match step
    case Tick(to) => s.now <= to
    case Check(_, _) => true
    case Post(i) => i < |s.dispatches|
    case Run => !s.closed && s.busy.Idle? && s.queue != []
    case EndCoalesce => s.busy.Coalescing?
    case Fire(h) => !s.closed && s.busy.Idle? && h < |s.handles| && s.handles[h].live && s.handles[h].due <= s.now
    case EndFlush => s.busy.Flushing?
    case Latch => true
    case HandBack => s.stops > 0
    case StopOnLoop => !s.closed && s.busy.Idle?
    case CloseLoop => s.busy.Idle?
  }

  function Next(s: State, step: Step): State
    requires Enabled(s, step)
  {
    match step
    case Tick(to) => s.(now := to)
    case Check(path, change) => if s.stopped then s else s.(dispatches := s.dispatches + [(path, change)])
    case Post(i) =>
      var rest := s.(dispatches := s.dispatches[..i] + s.dispatches[i + 1..]);
      if s.closed then rest
      else rest.(queue := s.queue + [CoalesceCall(s.dispatches[i].0, s.dispatches[i].1)])
    case Run =>
      var rest := s.(queue := s.queue[1..]);
      if s.queue[0].DiscardCall? then DiscardEffect(rest)
      else if s.stopped then rest
      else rest.(busy := Coalescing(s.queue[0].path, s.queue[0].change))
    case EndCoalesce => CoalesceEffect(s.(busy := Idle), s.busy.path, s.busy.change)
    case Fire(h) =>
      var run := s.(handles := Cancelled(s.handles, h));
      if s.stopped then run else run.(busy := Flushing(s.handles[h].path))
    case EndFlush => FlushEffect(s.(busy := Idle), s.busy.path)
    case Latch => s.(stopped := true, stops := s.stops + 1)
    case HandBack =>
      var rest := s.(stops := s.stops - 1);
      if s.closed then rest.(pending := map[], timers := map[], trace := s.trace + [Dropped])
      else rest.(queue := s.queue + [DiscardCall])
    case StopOnLoop => DiscardEffect(s.(stopped := true))
    case CloseLoop => s.(closed := true)
  }

  ghost predicate Initial(s: State) {
    && !s.stopped && !s.closed && s.pending == map[] && s.timers == map[] && s.handles == [] && s.queue == []
    && s.dispatches == [] && s.stops == 0 && s.busy.Idle? && s.trace == []
  }

  /** A run: every step enabled where it is taken. */
  ghost predicate IsRun(s: State, steps: seq<Step>)
    decreases |steps|
  {
    steps == [] || (Enabled(s, steps[0]) && IsRun(Next(s, steps[0]), steps[1..]))
  }

  ghost function After(s: State, steps: seq<Step>): State
    requires IsRun(s, steps)
    decreases |steps|
  {
    if steps == [] then s else After(Next(s, steps[0]), steps[1..])
  }

  // ---- The object ---------------------------------------------------------------------

  /** The watcher's fields and the part of the loop it uses; each method is one callback run
      without interruption. */
  class RealFileWatcher {
    var stopped: bool
    var pending: map<string, Change>
    var timers: map<string, nat>
    var handles: seq<Handle>
    var queue: seq<Call>
    var now: int
    var loopClosed: bool
    ghost var trace: seq<Event>

    constructor (now: int)
      ensures Initial(Here()) && this.now == now
    {
      stopped, loopClosed := false, false;
      pending, timers, handles, queue := map[], map[], [], [];
      this.now := now;
      trace := [];
    }

    ghost function Here(): State
      reads this
    {
      State(stopped, loopClosed, now, pending, timers, handles, queue, [], 0, Idle, trace)
    }

    /** `_dispatch_from_thread`; posting to a closed loop raises `RuntimeError`. */
    method Dispatch(path: string, change: Change) returns (raised: bool)
      modifies this`queue
      ensures raised == (!stopped && loopClosed)
      ensures Here() == old(Here()).(queue :=
                if stopped || loopClosed then old(queue) else old(queue) + [CoalesceCall(path, change)])
    {
      if stopped {
        return false;
      }
      if loopClosed {
        return true;
      }
      queue := queue + [CoalesceCall(path, change)];
      return false;
    }

    /** `_coalesce`. */
    method Coalesce(path: string, change: Change)
      modifies this
      ensures Here() == if old(stopped) then old(Here()) else CoalesceEffect(old(Here()), path, change)
    {
      if stopped {
        return;
      }
      if path in timers {
        handles := Cancelled(handles, timers[path]);
      }
      pending := pending[path := change];
      timers := timers[path := |handles|];
      handles := handles + [Handle(path, now + WINDOW, true)];
      trace := trace + [Coalesced(path, change, now)];
    }

    /** `_flush`; the event it fans out, if any. */
    method Flush(path: string) returns (event: Option<(string, Change)>)
      modifies this
      ensures Here() == if old(stopped) then old(Here()) else FlushEffect(old(Here()), path)
      ensures event == if !old(stopped) && path in old(pending) then Some((path, old(pending)[path])) else None
    {
      if stopped {
        return None;
      }
      timers := timers - {path};
      if path !in pending {
        assert pending - {path} == pending;
        return None;
      }
      var change := pending[path];
      pending := pending - {path};
      trace := trace + [Emitted(path, change, now)];
      return Some((path, change));
    }

    /** `_discard_debounce_state`: cancels one handle after another. */
    method Discard()
      modifies this
      ensures Here() == DiscardEffect(old(Here()))
    {
      ghost var before := handles;
      var snapshot := timers.Values;
      for i := 0 to |handles|
        invariant Here() == old(Here()).(handles := handles)
        invariant |handles| == |before|
        invariant forall k :: 0 <= k < |handles| ==>
                    handles[k] == if k < i && k in snapshot then before[k].(live := false) else before[k]
      {
        if i in snapshot {
          handles := handles[i := handles[i].(live := false)];
        }
      }
      timers := map[];
      pending := map[];
      trace := trace + [Dropped];
    }

    /** `stop`, on the loop thread or off it. */
    method Stop(onLoopThread: bool)
      modifies this
      ensures Here() ==
        var latched := old(Here()).(stopped := true);
        if onLoopThread then DiscardEffect(latched)
        else if old(loopClosed) then latched.(pending := map[], timers := map[], trace := old(trace) + [Dropped])
        else latched.(queue := old(queue) + [DiscardCall])
    {
      stopped := true;
      if onLoopThread {
        Discard();
      } else if loopClosed {
        timers := map[];
        pending := map[];
        trace := trace + [Dropped];
      } else {
        queue := queue + [DiscardCall];
      }
    }
  }
}
