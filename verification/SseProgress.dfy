/** No client is left hanging: what it is owed can always be delivered to it. */
module SseProgress {
  import opened Common
  import opened Sse

  /** A client that waits, or is between two waits, has a read that nobody forgot. */
  predicate HasRead<E>(client: Client<E>) {
    client.phase.Waiting? || client.phase.Checking? || client.phase.AtKeepAlive? || client.phase.AtStale? ==>
      !client.task.NoTask?
  }

  ghost predicate AllHaveReads<E>(s: State<E>) { forall k :: k in s.clients ==> HasRead(s.clients[k]) }

  lemma ReadsStep<E>(s: State<E>, step: Step<E>)
    requires AllHaveReads(s) && Enabled(s, step)
    ensures AllHaveReads(Next(s, step))
  {
  }

  lemma {:induction false} ReadsRun<E>(s: State<E>, steps: seq<Step<E>>)
    requires AllHaveReads(s) && IsRun(s, steps)
    ensures AllHaveReads(After(s, steps))
    decreases |steps|
  {
    if steps != [] {
      ReadsStep(s, steps[0]);
      ReadsRun(Next(s, steps[0]), steps[1..]);
    }
  }

  /** The client is on the hub and has not yielded everything fanned out since it joined. */
  ghost predicate IsOwed<E>(s: State<E>, k: nat) {
    && k in s.clients && s.clients[k].base.Some?
    && s.clients[k].base.value + |Changes(s.clients[k].frames)| < |s.log|
  }

  /** The next event the client is owed. */
  ghost function NextOwed<E>(s: State<E>, k: nat): E
    requires IsOwed(s, k)
  {
    s.log[s.clients[k].base.value + |Changes(s.clients[k].frames)|]
  }

  /** These steps of the client alone yield it one event. */
  ghost predicate Yields<E>(s: State<E>, steps: seq<Step<E>>, k: nat, event: E) {
    && IsRun(s, steps) && k in s.clients && k in After(s, steps).clients
    && After(s, steps).clients[k].frames == s.clients[k].frames + [Change(event)]
  }

  lemma RunCons<E>(s: State<E>, step: Step<E>, rest: seq<Step<E>>)
    requires Enabled(s, step) && IsRun(Next(s, step), rest)
    ensures IsRun(s, [step] + rest) && After(s, [step] + rest) == After(Next(s, step), rest)
  {
    assert ([step] + rest)[1..] == rest;
  }

  lemma YieldsCons<E>(s: State<E>, step: Step<E>, rest: seq<Step<E>>, k: nat, event: E)
    requires Enabled(s, step) && Yields(Next(s, step), rest, k, event)
    requires k in s.clients && Next(s, step).clients[k].frames == s.clients[k].frames
    ensures Yields(s, [step] + rest, k, event)
  {
    RunCons(s, step, rest);
  }

  // ---- Read done, read in `get`, read not started -------------------------------------

  lemma DoneYields<E>(s: State<E>, k: nat)
    requires k in s.clients && s.clients[k].phase.Waiting? && s.clients[k].task.Done?
    ensures Yields(s, [Wake(k)], k, s.clients[k].task.event)
  {
    var t := Next(s, Wake(k));
    assert IsRun(t, []) && After(t, []) == t;
    assert [Step<E>.Wake(k)] + [] == [Step<E>.Wake(k)];
    RunCons(s, Wake(k), []);
  }

  lemma GettingYields<E>(s: State<E>, k: nat)
    requires k in s.clients && s.clients[k].phase.Waiting? && s.clients[k].task.Getting?
    requires k in s.queues && s.queues[k] != []
    ensures Yields(s, [Deliver(k)] + [Wake(k)], k, s.queues[k][0])
  {
    DoneYields(Next(s, Deliver(k)), k);
    YieldsCons(s, Deliver(k), [Wake(k)], k, s.queues[k][0]);
  }

  lemma NotStartedYields<E>(s: State<E>, k: nat)
    requires k in s.clients && s.clients[k].phase.Waiting? && s.clients[k].task.NotStarted?
    requires !s.clients[k].subscription.Unstarted? && k in s.queues && s.queues[k] != []
    ensures Yields(s, [StartTask(k)] + ([Deliver(k)] + [Wake(k)]), k, s.queues[k][0])
  {
    GettingYields(Next(s, StartTask(k)), k);
    YieldsCons(s, StartTask(k), [Deliver(k)] + [Wake(k)], k, s.queues[k][0]);
  }

  // ---- What is owed stands first ------------------------------------------------------

  lemma OwedIsFirst<E>(yielded: seq<E>, task: Task<E>, queue: seq<E>, log: seq<E>, base: nat)
    requires base <= |log| && Owned(yielded, task, queue) == log[base..] && base + |yielded| < |log|
    ensures task.Done? ==> task.event == log[base + |yielded|]
    ensures !task.Done? ==> queue != [] && queue[0] == log[base + |yielded|]
  {
    var owned := Owned(yielded, task, queue);
    assert owned[|yielded|] == log[base + |yielded|];
    if !task.Done? {
      assert owned == yielded + queue;
    }
  }

  lemma WaitingYields<E>(s: State<E>, k: nat) returns (steps: seq<Step<E>>)
    requires Inv(s) && AllHaveReads(s) && IsOwed(s, k) && s.clients[k].phase.Waiting?
    ensures Yields(s, steps, k, NextOwed(s, k))
  {
    var client := s.clients[k];
    assert ClientOk(s, k);
    SinceIs(s.log, client.base.value);
    OwedIsFirst(Changes(client.frames), client.task, s.queues[k], s.log, client.base.value);
    match client.task {
      case Done(_) =>
        DoneYields(s, k);
        steps := [Wake(k)];
      case Getting =>
        GettingYields(s, k);
        steps := [Deliver(k)] + [Wake(k)];
      case NotStarted =>
        NotStartedYields(s, k);
        steps := [StartTask(k)] + ([Deliver(k)] + [Wake(k)]);
    }
  }

  lemma ResumeWaits<E>(s: State<E>, k: nat)
    requires IsOwed(s, k) && (s.clients[k].phase.AtChange? || s.clients[k].phase.AtKeepAlive?)
    ensures Enabled(s, Resume(k))
    ensures
      var t := Next(s, Resume(k));
      && IsOwed(t, k) && t.clients[k].phase.Waiting?
      && t.clients[k].frames == s.clients[k].frames && NextOwed(t, k) == NextOwed(s, k)
  {
  }

  lemma ResumedYields<E>(s: State<E>, k: nat, t: State<E>) returns (steps: seq<Step<E>>)
    requires Enabled(s, Resume(k)) && t == Next(s, Resume(k)) && IsOwed(s, k)
    requires Inv(t) && AllHaveReads(t) && IsOwed(t, k) && t.clients[k].phase.Waiting?
    requires t.clients[k].frames == s.clients[k].frames && NextOwed(t, k) == NextOwed(s, k)
    ensures Yields(s, steps, k, NextOwed(s, k))
  {
    var rest := WaitingYields(t, k);
    YieldsCons(s, Resume(k), rest, k, NextOwed(t, k));
    steps := [Resume(k)] + rest;
  }

  /** In every reachable state a client that streams, and has not been sent everything that was
      fanned out since it joined, can be sent the next event at once: by steps of its own,
      whatever the others do, and with nothing else in between. */
  lemma OwedEventArrives<E>(steps: seq<Step<E>>, k: nat) returns (more: seq<Step<E>>)
    requires IsRun(Initial(), steps) && IsOwed(After(Initial(), steps), k)
    requires
      var phase := After(Initial(), steps).clients[k].phase;
      phase.Waiting? || phase.AtChange? || phase.AtKeepAlive?
    ensures Yields(After(Initial(), steps), more, k, NextOwed(After(Initial(), steps), k))
  {
    var s := After(Initial<E>(), steps);
    RunKeeps(Initial<E>(), steps);
    ReadsRun(Initial<E>(), steps);
    if s.clients[k].phase.Waiting? {
      more := WaitingYields(s, k);
    } else {
      ResumeWaits(s, k);
      StepKeeps(s, Resume(k));
      ReadsStep(s, Resume(k));
      more := ResumedYields(s, k, Next(s, Resume(k)));
    }
  }

  /** A client that has connected and asks for its next frame is on the hub as soon as its read
      has run, and from then on misses nothing. */
  lemma ReadJoins<E>(steps: seq<Step<E>>, k: nat)
    requires IsRun(Initial(), steps) && k in After(Initial(), steps).clients
    requires After(Initial(), steps).clients[k].phase.AtReady?
    ensures
      var s := After(Initial(), steps);
      && Enabled(s, Resume(k)) && Enabled(Next(s, Resume(k)), StartTask(k))
      && var t := Next(Next(s, Resume(k)), StartTask(k));
         && t.subscribers == s.subscribers + [k] && k in t.queues && t.queues[k] == []
         && t.clients[k].base == Some(|s.log|) && t.clients[k].phase.Waiting?
  {
    var s := After(Initial<E>(), steps);
    RunKeeps(Initial<E>(), steps);
    assert ClientOk(s, k);
  }
}
