/** When a client's stream stays open, when it says `stale`, when it ends, and which frames it
    yields, over every run (services/events_service.py). */
module SseStream {
  import opened Common
  import opened Sse

  // ---- Staying open -------------------------------------------------------------------

  /** A step that neither drops the client nor finds it gone or its watcher replaced. */
  predicate IsCalm<E>(step: Step<E>, k: nat) {
    match step
    case Drop(j) => j != k
    case Checked(j, disconnected, stale) => j != k || (!disconnected && !stale)
    case _ => true
  }

  predicate IsStreaming<E>(s: State<E>, k: nat) {
    k in s.clients ==> !IsEnding(s.clients[k].phase) && !s.clients[k].phase.AtStale?
  }

  lemma CalmKeepsStreaming<E>(s: State<E>, step: Step<E>, k: nat)
    requires Enabled(s, step) && IsStreaming(s, k) && IsCalm(step, k)
    ensures IsStreaming(Next(s, step), k)
  {
  }

  lemma {:induction false} CalmRunKeepsStreaming<E>(s: State<E>, steps: seq<Step<E>>, k: nat)
    requires IsRun(s, steps) && IsStreaming(s, k) && forall i :: 0 <= i < |steps| ==> IsCalm(steps[i], k)
    ensures IsStreaming(After(s, steps), k)
    decreases |steps|
  {
    if steps != [] {
      CalmKeepsStreaming(s, steps[0], k);
      CalmRunKeepsStreaming(Next(s, steps[0]), steps[1..], k);
    }
  }

  /** Quiet heartbeats, events, other clients and fan-outs never end a stream: as long as a
      client is not dropped and no heartbeat finds it gone or its watcher replaced, it is open
      and has not been told that it is stale. */
  lemma StaysOpen<E>(steps: seq<Step<E>>, k: nat)
    requires IsRun(Initial(), steps) && k in After(Initial(), steps).clients
    requires Drop(k) !in steps
    requires forall disconnected, stale :: disconnected || stale ==> Checked(k, disconnected, stale) !in steps
    ensures !IsEnding(After(Initial(), steps).clients[k].phase)
    ensures Stale !in After(Initial(), steps).clients[k].frames
  {
    forall i | 0 <= i < |steps| ensures IsCalm(steps[i], k) {
      assert steps[i] in steps;
      assert steps[i].Checked? ==> steps[i] == Checked(steps[i].k, steps[i].disconnected, steps[i].stale);
    }
    CalmRunKeepsStreaming(Initial(), steps, k);
    StaleExactly(steps, k);
  }

  // ---- Stale --------------------------------------------------------------------------

  predicate SaidStale<E(==)>(s: State<E>, k: nat) { k in s.clients && Stale in s.clients[k].frames }

  /** `stale` is the last frame, once, and only the end of the stream follows it. */
  ghost predicate StaleIsLast<E>(s: State<E>, k: nat) {
    k in s.clients ==>
      var client := s.clients[k];
      && (client.phase.AtStale? ==> Stale in client.frames)
      && (Stale in client.frames ==>
           && (client.phase.AtStale? || IsEnding(client.phase))
           && client.frames[|client.frames| - 1] == Stale
           && Stale !in client.frames[..|client.frames| - 1])
  }

  lemma StaleStep<E>(s: State<E>, step: Step<E>, k: nat)
    requires Enabled(s, step) && StaleIsLast(s, k)
    ensures StaleIsLast(Next(s, step), k)
    ensures SaidStale(Next(s, step), k) <==> SaidStale(s, k) || step == Checked(k, false, true)
  {
    var t := Next(s, step);
    if k in s.clients && t.clients[k].frames != s.clients[k].frames {
      var before, after := s.clients[k].frames, t.clients[k].frames;
      assert after == before + [after[|after| - 1]];
      assert after[..|after| - 1] == before;
    }
  }

  lemma {:induction false} StaleRun<E>(s: State<E>, steps: seq<Step<E>>, k: nat)
    requires IsRun(s, steps) && StaleIsLast(s, k)
    ensures StaleIsLast(After(s, steps), k)
    ensures SaidStale(After(s, steps), k) <==> SaidStale(s, k) || Checked(k, false, true) in steps
    decreases |steps|
  {
    if steps != [] {
      StaleStep(s, steps[0], k);
      StaleRun(Next(s, steps[0]), steps[1..], k);
      assert steps == [steps[0]] + steps[1..];
    }
  }

  /** A client is told `stale` exactly when a heartbeat found it there and its watcher replaced;
      that frame is the last one, and the stream stands at it or is ending. */
  lemma StaleExactly<E>(steps: seq<Step<E>>, k: nat)
    requires IsRun(Initial(), steps) && k in After(Initial(), steps).clients
    ensures
      var client := After(Initial(), steps).clients[k];
      && (Stale in client.frames <==> Checked(k, false, true) in steps)
      && (Stale in client.frames ==>
           && client.frames[|client.frames| - 1] == Stale && Stale !in client.frames[..|client.frames| - 1]
           && (client.phase.AtStale? || IsEnding(client.phase)))
  {
    StaleRun(Initial(), steps, k);
  }

  // ---- Ending -------------------------------------------------------------------------

  predicate HasEnded<E>(s: State<E>, k: nat) { k in s.clients && IsEnding(s.clients[k].phase) }

  /** The step sends the client into its `finally`. */
  predicate Ends<E>(s: State<E>, step: Step<E>, k: nat) {
    match step
    case Drop(j) => j == k
    case Checked(j, disconnected, _) => j == k && disconnected
    case Resume(j) => j == k && k in s.clients && s.clients[k].phase.AtStale?
    case _ => false
  }

  lemma EndingStep<E>(s: State<E>, step: Step<E>, k: nat)
    requires Enabled(s, step)
    ensures HasEnded(Next(s, step), k) <==> HasEnded(s, k) || Ends(s, step, k)
    ensures HasEnded(s, k) || Ends(s, step, k) ==> Next(s, step).clients[k].frames == s.clients[k].frames
  {
  }

  lemma {:induction false} EndedRun<E>(s: State<E>, steps: seq<Step<E>>, k: nat)
    requires IsRun(s, steps) && HasEnded(s, k)
    ensures HasEnded(After(s, steps), k) && After(s, steps).clients[k].frames == s.clients[k].frames
    decreases |steps|
  {
    if steps != [] {
      EndingStep(s, steps[0], k);
      EndedRun(Next(s, steps[0]), steps[1..], k);
    }
  }

  lemma {:induction false} EndsInRun<E>(s: State<E>, steps: seq<Step<E>>, k: nat)
    requires IsRun(s, steps)
    requires Drop(k) in steps || exists stale :: Checked(k, true, stale) in steps
    ensures HasEnded(After(s, steps), k)
    decreases |steps|
  {
    EndingStep(s, steps[0], k);
    assert steps == [steps[0]] + steps[1..];
    if Ends(s, steps[0], k) {
      EndedRun(Next(s, steps[0]), steps[1..], k);
    } else {
      EndsInRun(Next(s, steps[0]), steps[1..], k);
    }
  }

  /** Once a client was dropped, or a heartbeat found it gone, its stream has ended and nothing
      more is ever yielded, whatever follows. */
  lemma EndsWhenGone<E>(steps: seq<Step<E>>, more: seq<Step<E>>, k: nat)
    requires IsRun(Initial(), steps) && IsRun(After(Initial(), steps), more)
    requires Drop(k) in steps || exists stale :: Checked(k, true, stale) in steps
    ensures
      var t := After(Initial(), steps);
      HasEnded(t, k) && HasEnded(After(t, more), k) && After(t, more).clients[k].frames == t.clients[k].frames
  {
    EndsInRun(Initial(), steps, k);
    EndedRun(After(Initial(), steps), more, k);
  }

  // ---- The frames, one by one ---------------------------------------------------------

  datatype Shape = ReadyShape | ChangeShape | KeepAliveShape | StaleShape

  function ShapeOf<E>(f: Frame<E>): Shape {
    match f
    case Ready => ReadyShape
    case Change(_) => ChangeShape
    case KeepAlive => KeepAliveShape
    case Stale => StaleShape
  }

  function ShapesOf<E>(frames: seq<Frame<E>>): seq<Shape> {
    seq(|frames|, i requires 0 <= i < |frames| => ShapeOf(frames[i]))
  }

  /** What the client sees of a run: the handshake when it connects, a change for each finished
      read, and for each heartbeat without one a keepalive, or `stale` if its watcher was
      replaced, or nothing if it is gone. */
  function Seen<E>(steps: seq<Step<E>>, k: nat): seq<Shape> {
    if steps == [] then []
    else
      Seen(steps[..|steps| - 1], k) +
      match steps[|steps| - 1]
      case Connect(j) => if j == k then [ReadyShape] else []
      case Wake(j) => if j == k then [ChangeShape] else []
      case Checked(j, disconnected, stale) =>
        if j != k || disconnected then [] else if stale then [StaleShape] else [KeepAliveShape]
      case _ => []
  }

  function SeenAt<E>(s: State<E>, k: nat): seq<Shape> { if k in s.clients then ShapesOf(s.clients[k].frames) else [] }

  lemma SeenStep<E>(s: State<E>, step: Step<E>, k: nat)
    requires Enabled(s, step)
    ensures SeenAt(Next(s, step), k) == SeenAt(s, k) + Seen([step], k)
  {
    assert [step][..0] == [] && Seen([step][..0], k) == [];
    var t := Next(s, step);
    if k in s.clients && t.clients[k].frames != s.clients[k].frames {
      var before, after := s.clients[k].frames, t.clients[k].frames;
      assert after == before + [after[|after| - 1]];
    }
  }

  lemma {:induction false} SeenSplits<E>(a: seq<Step<E>>, b: seq<Step<E>>, k: nat)
    ensures Seen(a + b, k) == Seen(a, k) + Seen(b, k)
  {
    if b == [] {
      assert a + b == a;
    } else {
      var n := |b| - 1;
      assert (a + b)[..|a + b| - 1] == a + b[..n];
      SeenSplits(a, b[..n], k);
    }
  }

  lemma {:induction false} SeenRun<E>(s: State<E>, steps: seq<Step<E>>, k: nat)
    requires IsRun(s, steps)
    ensures SeenAt(After(s, steps), k) == SeenAt(s, k) + Seen(steps, k)
    decreases |steps|
  {
    if steps != [] {
      SeenStep(s, steps[0], k);
      SeenRun(Next(s, steps[0]), steps[1..], k);
      SeenSplits([steps[0]], steps[1..], k);
      assert steps == [steps[0]] + steps[1..];
    }
  }

  /** The frames of a stream, in order, are the ones its own steps account for. */
  lemma FramesInOrder<E>(steps: seq<Step<E>>, k: nat)
    requires IsRun(Initial(), steps) && k in After(Initial(), steps).clients
    ensures ShapesOf(After(Initial(), steps).clients[k].frames) == Seen(steps, k)
  {
    SeenRun(Initial(), steps, k);
  }
}
