/** Server-sent events: many clients, each a generator with one long-lived pending read, fed
    by one hub (services/events_service.py, file_adapter/watcher.py). */
module Sse {
  import opened Common
  import Hub

  datatype Frame<E> = Ready | Change(event: E) | KeepAlive | Stale

  /** The pending read, `next_task`. */
  datatype Task<E> = NoTask | NotStarted | Getting | Done(event: E)

  /** Where the client's generator is suspended. */
  datatype Phase =
    | AtReady       // at the handshake frame, before it subscribes
    | Waiting       // in `asyncio.wait`
    | Checking      // the heartbeat ran out with no event: asking whether the client left
    | AtChange
    | AtKeepAlive
    | AtStale
    | Leaving       // `finally`: before the pending read is cancelled
    | AwaitingRead  // the read is cancelled and awaited
    | Closing       // before `sub.aclose()`
    | Closed

  /** Where the subscription, the hub's generator behind the pending read, is suspended. */
  datatype Subscription =
    | Unstarted     // not run yet, so not on the hub
    | InGet         // in `queue.get()`, which the pending read drives
    | AtYield       // it has yielded an event and nothing drives it
    | Finished      // closed, or its own `finally` has run

  datatype Client<E> = Client(
    phase: Phase,
    subscription: Subscription,
    task: Task<E>,
    frames: seq<Frame<E>>,
    base: Option<nat>,       // how much had been fanned out when its queue was registered
    removals: nat)           // how often its queue was taken off the hub

  datatype State<E> = State(
    log: seq<E>,                       // everything fanned out
    subscribers: seq<nat>,             // the hub's list, by client
    queues: map<nat, seq<E>>,
    clients: map<nat, Client<E>>)

  datatype Step<E> =
    | FanOut(event: E)
    | Connect(k: nat)
    | Resume(k: nat)                             // the consumer asks for the next frame
    | StartTask(k: nat)                          // the loop first runs the pending read
    | Deliver(k: nat)                            // the queue hands it an event
    | Wake(k: nat)                               // `asyncio.wait` returns with the read done
    | Timeout(k: nat)                            // or without it
    | Checked(k: nat, disconnected: bool, stale: bool)
    | Drop(k: nat)                               // the generator is closed or cancelled where it is; in
                                                 // `finally`, `suppress` swallows a second cancellation
    | Cancel(k: nat)                             // `next_task.cancel()`
    | Abort(k: nat)                              // the loop throws the cancellation into the read
    | Awaited(k: nat)                            // `await next_task` returns, whatever it raises
    | Close(k: nat)                              // `await sub.aclose()`

  predicate IsPending<E>(task: Task<E>) { task.NotStarted? || task.Getting? }

  /** `finally` has been entered. */
  predicate IsEnding(phase: Phase) {
    phase.Leaving? || phase.AwaitingRead? || phase.Closing? || phase.Closed?
  }

  /** A read that was cancelled neither starts nor takes an event any more. */
  predicate Enabled<E>(s: State<E>, step: Step<E>) {
    match step
    case FanOut(_) => true
    case Connect(k) => k !in s.clients
    case Resume(k) =>
      k in s.clients && (s.clients[k].phase.AtReady? || s.clients[k].phase.AtChange?
                         || s.clients[k].phase.AtKeepAlive? || s.clients[k].phase.AtStale?)
    case StartTask(k) => k in s.clients && s.clients[k].task.NotStarted? && !s.clients[k].phase.AwaitingRead?
    case Deliver(k) =>
      && k in s.clients && s.clients[k].task.Getting? && !s.clients[k].phase.AwaitingRead?
      && k in s.queues && s.queues[k] != []
    case Wake(k) => k in s.clients && s.clients[k].phase.Waiting? && s.clients[k].task.Done?
    case Timeout(k) => k in s.clients && s.clients[k].phase.Waiting? && !s.clients[k].task.Done?
    case Checked(k, _, _) => k in s.clients && s.clients[k].phase.Checking?
    case Drop(k) => k in s.clients && !IsEnding(s.clients[k].phase)
    case Cancel(k) => k in s.clients && s.clients[k].phase.Leaving?
    case Abort(k) => k in s.clients && s.clients[k].phase.AwaitingRead? && IsPending(s.clients[k].task)
    case Awaited(k) => k in s.clients && s.clients[k].phase.AwaitingRead? && !IsPending(s.clients[k].task)
    case Close(k) => k in s.clients && s.clients[k].phase.Closing?
  }

  function Put<E>(s: State<E>, k: nat, client: Client<E>): State<E> { s.(clients := s.clients[k := client]) }

  /** The subscription's own `finally`: its queue leaves the hub. */
  function Released<E>(s: State<E>, k: nat, client: Client<E>): State<E> {
    Put(s, k, client.(subscription := Finished, removals := client.removals + 1))
      .(subscribers := Removed(s.subscribers, k), queues := s.queues - {k})
  }

  function Next<E>(s: State<E>, step: Step<E>): State<E>
    requires Enabled(s, step)
  {
    match step
    case FanOut(event) =>
      s.(log := s.log + [event],
         queues := map k | k in s.queues :: if k in s.subscribers then s.queues[k] + [event] else s.queues[k])
    case Connect(k) => Put(s, k, Client(AtReady, Unstarted, NoTask, [Ready], None, 0))
    case Resume(k) =>
      var client := s.clients[k];
      (match client.phase
       case AtStale => Put(s, k, client.(phase := Leaving))
       case AtKeepAlive => Put(s, k, client.(phase := Waiting))
       case _ => Put(s, k, client.(phase := Waiting, task := NotStarted)))
    case StartTask(k) =>
      var client := s.clients[k].(task := Getting, subscription := InGet);
      if !s.clients[k].subscription.Unstarted? then Put(s, k, client)
      else
        Put(s, k, client.(base := Some(|s.log|))).(subscribers := s.subscribers + [k], queues := s.queues[k := []])
    case Deliver(k) =>
      Put(s, k, s.clients[k].(task := Done(s.queues[k][0]), subscription := AtYield))
        .(queues := s.queues[k := s.queues[k][1..]])
    case Wake(k) =>
      var client := s.clients[k];
      Put(s, k, client.(phase := AtChange, task := NoTask, frames := client.frames + [Change(client.task.event)]))
    case Timeout(k) => Put(s, k, s.clients[k].(phase := Checking))
    case Checked(k, disconnected, stale) =>
      var client := s.clients[k];
      if disconnected then Put(s, k, client.(phase := Leaving))
      else if stale then Put(s, k, client.(phase := AtStale, frames := client.frames + [Stale]))
      else Put(s, k, client.(phase := AtKeepAlive, frames := client.frames + [KeepAlive]))
    case Drop(k) =>
      var client := s.clients[k];
      Put(s, k, client.(phase := if client.phase.AtReady? then Closed else Leaving))
    case Cancel(k) => Put(s, k, s.clients[k].(phase := AwaitingRead))
    case Abort(k) =>
      var client := s.clients[k];
      if client.task.Getting? then Released(s, k, client.(task := NoTask)) else Put(s, k, client.(task := NoTask))
    case Awaited(k) => Put(s, k, s.clients[k].(phase := Closing))
    case Close(k) =>
      var client := s.clients[k].(phase := Closed, task := NoTask);
      (match client.subscription
       case AtYield => Released(s, k, client)
       case InGet => Put(s, k, client)  // `aclose()` raises: the generator is already running
       case _ => Put(s, k, client.(subscription := Finished)))
  }

  /** `list.remove`. */
  function Removed(items: seq<nat>, k: nat): seq<nat> {
    if items == [] then []
    else if items[0] == k then items[1..]
    else [items[0]] + Removed(items[1..], k)
  }

  ghost predicate IsRun<E>(s: State<E>, steps: seq<Step<E>>)
    decreases |steps|
  {
    steps == [] || (Enabled(s, steps[0]) && IsRun(Next(s, steps[0]), steps[1..]))
  }

  ghost function After<E>(s: State<E>, steps: seq<Step<E>>): State<E>
    requires IsRun(s, steps)
    decreases |steps|
  {
    if steps == [] then s else After(Next(s, steps[0]), steps[1..])
  }

  function Initial<E>(): State<E> { State([], [], map[], map[]) }

  // ---- What holds ---------------------------------------------------------------------

  /** The events of the change frames, in order. */
  function Changes<E>(frames: seq<Frame<E>>): seq<E> {
    if frames == [] then []
    else
      var last := frames[|frames| - 1];
      Changes(frames[..|frames| - 1]) + if last.Change? then [last.event] else []
  }

  lemma ChangesAppend<E>(frames: seq<Frame<E>>, f: Frame<E>)
    ensures Changes(frames + [f]) == if f.Change? then Changes(frames) + [f.event] else Changes(frames)
  {
    assert (frames + [f])[..|frames|] == frames;
    assert Changes(frames) + [] == Changes(frames);
  }

  function Held<E>(task: Task<E>): seq<E> { if task.Done? then [task.event] else [] }

  /** What was fanned out from position `base` on. */
  function Since<E>(log: seq<E>, base: nat): seq<E> {
    if |log| <= base then [] else Since(log[..|log| - 1], base) + [log[|log| - 1]]
  }

  lemma {:induction false} SinceIs<E>(log: seq<E>, base: nat)
    requires base <= |log|
    ensures Since(log, base) == log[base..]
  {
    if base < |log| {
      SinceIs(log[..|log| - 1], base);
    }
  }

  lemma SinceAppend<E>(log: seq<E>, base: nat, e: E)
    requires base <= |log|
    ensures Since(log + [e], base) == Since(log, base) + [e]
  {
    assert (log + [e])[..|log|] == log;
  }

  predicate IsPrefix<E(==)>(a: seq<E>, b: seq<E>) { |a| <= |b| && a == b[..|a|] }

  function Owned<E>(yielded: seq<E>, task: Task<E>, queue: seq<E>): seq<E> { yielded + Held(task) + queue }

  lemma OwnedNothing<E>(task: Task<E>)
    requires !task.Done?
    ensures Owned([], task, []) == []
  {
  }

  lemma OwnedAppend<E>(yielded: seq<E>, task: Task<E>, queue: seq<E>, e: E)
    ensures Owned(yielded, task, queue + [e]) == Owned(yielded, task, queue) + [e]
  {
  }

  lemma OwnedDeliver<E>(yielded: seq<E>, task: Task<E>, queue: seq<E>)
    requires !task.Done? && queue != []
    ensures Owned(yielded, Done(queue[0]), queue[1..]) == Owned(yielded, task, queue)
  {
    assert queue == [queue[0]] + queue[1..];
  }

  lemma OwnedYield<E>(yielded: seq<E>, task: Task<E>, queue: seq<E>)
    requires task.Done?
    ensures Owned(yielded + [task.event], NoTask, queue) == Owned(yielded, task, queue)
  {
  }

  lemma OwnedPrefix<E>(yielded: seq<E>, task: Task<E>, queue: seq<E>)
    ensures IsPrefix(yielded, Owned(yielded, task, queue))
  {
  }

  predicate IsRegistered<E>(client: Client<E>) { client.subscription.InGet? || client.subscription.AtYield? }

  /** Who drives the subscription: exactly a read in `queue.get()` runs it. */
  predicate TaskFits<E>(client: Client<E>) {
    && (client.task.Getting? <==> client.subscription.InGet?)
    && (client.task.Done? ==> client.subscription.AtYield?)
    && (client.task.NotStarted? ==> client.subscription.Unstarted? || client.subscription.AtYield?)
    && (client.phase.AtReady? ==> client.subscription.Unstarted?)
    && (client.phase.AtReady? || client.phase.AtChange? || client.phase.Closed? ==> client.task.NoTask?)
    && (client.phase.Closing? ==> !IsPending(client.task))
    && (client.phase.Closed? ==> !IsRegistered(client))
    && (client.subscription.Finished? ==>
         client.phase.AwaitingRead? || client.phase.Closing? || client.phase.Closed?)
  }

  /** What was registered is removed once, when the subscription finishes. */
  predicate RemovalsFit<E>(client: Client<E>) {
    && (client.subscription.Unstarted? ==> client.base.None?)
    && (IsRegistered(client) ==> client.base.Some?)
    && client.removals == (if client.base.Some? && client.subscription.Finished? then 1 else 0)
  }

  /** A client, whether it is on the hub, its queue there, and everything fanned out. A
      registered client has, in order, all of that since: yielded, then held by the pending
      read, then queued. */
  ghost predicate Fits<E>(client: Client<E>, onHub: bool, queue: Option<seq<E>>, log: seq<E>) {
    && TaskFits(client) && RemovalsFit(client)
    && (onHub <==> IsRegistered(client)) && (queue.Some? <==> onHub)
    && (client.base.None? ==> Changes(client.frames) == [])
    && (client.base.Some? ==>
         client.base.value <= |log| && IsPrefix(Changes(client.frames), Since(log, client.base.value)))
    && (onHub && client.base.Some? ==>
         Owned(Changes(client.frames), client.task, queue.value) == Since(log, client.base.value))
    && client.frames != [] && client.frames[0] == Ready
  }

  function QueueOf<E>(s: State<E>, k: nat): Option<seq<E>> { if k in s.queues then Some(s.queues[k]) else None }

  ghost predicate ClientOk<E>(s: State<E>, k: nat)
    requires k in s.clients
  {
    Fits(s.clients[k], k in s.subscribers, QueueOf(s, k), s.log)
  }

  ghost predicate Inv<E>(s: State<E>) {
    && Distinct(s.subscribers)
    && (forall k :: k in s.subscribers ==> k in s.clients)
    && (forall k :: k in s.queues ==> k in s.clients)
    && forall k :: k in s.clients ==> ClientOk(s, k)
  }

  lemma {:induction false} RemovedIs(items: seq<nat>, k: nat)
    requires Distinct(items)
    ensures Distinct(Removed(items, k))
    ensures forall x :: x in Removed(items, k) <==> x in items && x != k
    ensures |Removed(items, k)| == |items| - (if k in items then 1 else 0)
  {
    if items != [] {
      assert items == [items[0]] + items[1..];
      TailIsDistinct(items);
      RemovedIs(items[1..], k);
      assert items[0] !in Removed(items[1..], k);
    }
  }

  lemma TailIsDistinct(items: seq<nat>)
    requires Distinct(items) && items != []
    ensures Distinct(items[1..]) && items[0] !in items[1..]
  {
    forall i, j | 0 <= i < j < |items[1..]| ensures items[1..][i] != items[1..][j] {
      assert items[i + 1] != items[j + 1];
    }
  }

  ghost predicate IsSame<E>(s: State<E>, t: State<E>, j: nat) {
    && (j in t.clients <==> j in s.clients) && (j in s.clients && j in t.clients ==> t.clients[j] == s.clients[j])
    && (j in t.subscribers <==> j in s.subscribers) && QueueOf(t, j) == QueueOf(s, j)
  }

  /** A step about one client leaves the others as they are. */
  lemma OthersStay<E>(s: State<E>, t: State<E>, k: nat)
    requires Inv(s) && t.log == s.log && Distinct(t.subscribers) && k in t.clients && ClientOk(t, k)
    requires forall j: nat :: j != k ==> IsSame(s, t, j)
    ensures Inv(t)
  {
    forall j | j in t.clients ensures ClientOk(t, j) {
      assert j == k || (IsSame(s, t, j) && ClientOk(s, j));
    }
    forall j | j in t.subscribers ensures j in t.clients {
      assert j == k || IsSame(s, t, j);
    }
    forall j | j in t.queues ensures j in t.clients {
      assert j == k || (IsSame(s, t, j) && QueueOf(s, j).Some?);
    }
  }

  lemma PrefixGrows<E>(a: seq<E>, b: seq<E>, e: E)
    requires IsPrefix(a, b)
    ensures IsPrefix(a, b + [e])
  {
    assert (b + [e])[..|a|] == b[..|a|];
  }

  lemma FanOutFits<E>(client: Client<E>, onHub: bool, queue: Option<seq<E>>, log: seq<E>, e: E)
    requires Fits(client, onHub, queue, log)
    ensures Fits(client, onHub, if onHub then Some(queue.value + [e]) else queue, log + [e])
  {
    if client.base.Some? {
      SinceAppend(log, client.base.value, e);
      PrefixGrows(Changes(client.frames), Since(log, client.base.value), e);
      if onHub {
        OwnedAppend(Changes(client.frames), client.task, queue.value, e);
      }
    }
  }

  lemma FanOutKeeps<E>(s: State<E>, event: E)
    requires Inv(s)
    ensures Inv(Next(s, FanOut(event)))
  {
    var t := Next(s, FanOut(event));
    forall k | k in t.clients ensures ClientOk(t, k) {
      assert ClientOk(s, k);
      FanOutFits(s.clients[k], k in s.subscribers, QueueOf(s, k), s.log, event);
    }
  }

  /** Starting the read runs the subscription: for the first time, it registers. */
  lemma StartFits<E>(client: Client<E>, queue: Option<seq<E>>, log: seq<E>)
    requires Fits(client, IsRegistered(client), queue, log)
    requires client.task.NotStarted? && !client.phase.AwaitingRead?
    ensures
      var started := client.(task := Getting, subscription := InGet);
      if client.subscription.Unstarted? then Fits(started.(base := Some(|log|)), true, Some([]), log)
      else Fits(started, true, queue, log)
  {
    OwnedNothing(Task<E>.Getting);
    if !client.subscription.Unstarted? {
      assert Owned(Changes(client.frames), Getting, queue.value)
          == Owned(Changes(client.frames), client.task, queue.value);
    }
  }

  lemma StartKeeps<E>(s: State<E>, k: nat)
    requires Inv(s) && Enabled(s, StartTask(k))
    ensures Inv(Next(s, StartTask(k)))
  {
    assert ClientOk(s, k);
    StartFits(s.clients[k], QueueOf(s, k), s.log);
    var client := s.clients[k].(task := Getting, subscription := InGet);
    if s.clients[k].subscription.Unstarted? {
      Registered(s, k, client.(base := Some(|s.log|)));
    } else {
      PutKeeps(s, k, client);
    }
  }

  lemma Registered<E>(s: State<E>, k: nat, client: Client<E>)
    requires Inv(s) && k in s.clients && k !in s.subscribers && Fits(client, true, Some([]), s.log)
    ensures Inv(Put(s, k, client).(subscribers := s.subscribers + [k], queues := s.queues[k := []]))
  {
    var t := Put(s, k, client).(subscribers := s.subscribers + [k], queues := s.queues[k := []]);
    JoinedIsDistinct(s.subscribers, k);
    forall j: nat | j != k ensures IsSame(s, t, j) {
      OthersSeeNoJoin(s, k, client, j);
    }
    assert QueueOf(t, k) == Some([]);
    OthersStay(s, t, k);
  }

  lemma JoinedIsDistinct(items: seq<nat>, k: nat)
    requires Distinct(items) && k !in items
    ensures Distinct(items + [k]) && k in items + [k]
  {
  }

  lemma OthersSeeNoJoin<E>(s: State<E>, k: nat, client: Client<E>, j: nat)
    requires j != k
    ensures IsSame(s, Put(s, k, client).(subscribers := s.subscribers + [k], queues := s.queues[k := []]), j)
  {
  }

  lemma DeliverFits<E>(client: Client<E>, queue: seq<E>, log: seq<E>)
    requires Fits(client, true, Some(queue), log) && queue != []
    requires client.task.Getting? && !client.phase.AwaitingRead?
    ensures Fits(client.(task := Done(queue[0]), subscription := AtYield), true, Some(queue[1..]), log)
  {
    OwnedDeliver(Changes(client.frames), client.task, queue);
  }

  lemma Moved<E>(s: State<E>, k: nat, client: Client<E>, queue: seq<E>)
    requires Inv(s) && k in s.clients && k in s.subscribers && Fits(client, true, Some(queue), s.log)
    ensures Inv(Put(s, k, client).(queues := s.queues[k := queue]))
  {
    var t := Put(s, k, client).(queues := s.queues[k := queue]);
    forall j: nat | j != k ensures IsSame(s, t, j) {
    }
    assert QueueOf(t, k) == Some(queue);
    OthersStay(s, t, k);
  }

  lemma DeliverKeeps<E>(s: State<E>, k: nat)
    requires Inv(s) && Enabled(s, Deliver(k))
    ensures Inv(Next(s, Deliver(k)))
  {
    assert ClientOk(s, k);
    DeliverFits(s.clients[k], s.queues[k], s.log);
    Moved(s, k, Next(s, Deliver(k)).clients[k], s.queues[k][1..]);
  }

  lemma WakeFits<E>(client: Client<E>, onHub: bool, queue: Option<seq<E>>, log: seq<E>)
    requires Fits(client, onHub, queue, log) && client.phase.Waiting? && client.task.Done?
    ensures Fits(client.(phase := AtChange, task := NoTask, frames := client.frames + [Change(client.task.event)]),
                 onHub, queue, log)
  {
    ChangesAppend(client.frames, Change(client.task.event));
    OwnedYield(Changes(client.frames), client.task, queue.value);
    OwnedPrefix(Changes(client.frames) + [client.task.event], NoTask, queue.value);
  }

  lemma OthersSeeNoPut<E>(s: State<E>, k: nat, client: Client<E>, j: nat)
    requires j != k
    ensures IsSame(s, Put(s, k, client), j)
  {
  }

  /** A step that changes one client and not the hub. */
  lemma PutKeeps<E>(s: State<E>, k: nat, client: Client<E>)
    requires Inv(s) && k in s.clients && Fits(client, k in s.subscribers, QueueOf(s, k), s.log)
    ensures Inv(Put(s, k, client))
  {
    var t := Put(s, k, client);
    forall j: nat | j != k ensures IsSame(s, t, j) {
      OthersSeeNoPut(s, k, client, j);
    }
    assert QueueOf(t, k) == QueueOf(s, k);
    OthersStay(s, t, k);
  }

  lemma WakeKeeps<E>(s: State<E>, k: nat)
    requires Inv(s) && Enabled(s, Wake(k))
    ensures Inv(Next(s, Wake(k)))
  {
    assert ClientOk(s, k);
    WakeFits(s.clients[k], k in s.subscribers, QueueOf(s, k), s.log);
    PutKeeps(s, k, Next(s, Wake(k)).clients[k]);
  }

  /** A step that moves one client on without touching its events or its subscription. */
  ghost predicate IsQuiet<E>(before: Client<E>, client: Client<E>) {
    && client.base == before.base && client.removals == before.removals
    && client.subscription == before.subscription && TaskFits(client)
    && Changes(client.frames) == Changes(before.frames)
    && client.frames != [] && client.frames[0] == Ready
    && Held(client.task) == Held(before.task)
  }

  lemma QuietFits<E>(before: Client<E>, client: Client<E>, onHub: bool, queue: Option<seq<E>>, log: seq<E>)
    requires Fits(before, onHub, queue, log) && IsQuiet(before, client)
    ensures Fits(client, onHub, queue, log)
  {
    if onHub {
      assert Owned(Changes(client.frames), client.task, queue.value)
          == Owned(Changes(before.frames), before.task, queue.value);
    }
  }

  lemma QuietKeeps<E>(s: State<E>, k: nat, client: Client<E>)
    requires Inv(s) && k in s.clients && IsQuiet(s.clients[k], client)
    ensures Inv(Put(s, k, client))
  {
    assert ClientOk(s, k);
    QuietFits(s.clients[k], client, k in s.subscribers, QueueOf(s, k), s.log);
    PutKeeps(s, k, client);
  }

  lemma CheckedKeeps<E>(s: State<E>, k: nat, disconnected: bool, stale: bool)
    requires Inv(s) && Enabled(s, Checked(k, disconnected, stale))
    ensures Inv(Next(s, Checked(k, disconnected, stale)))
  {
    var t := Next(s, Checked(k, disconnected, stale));
    assert ClientOk(s, k);
    ChangesAppend(s.clients[k].frames, Stale);
    ChangesAppend(s.clients[k].frames, KeepAlive);
    QuietKeeps(s, k, t.clients[k]);
  }

  lemma ConnectFits<E>(log: seq<E>)
    ensures Fits(Client(AtReady, Unstarted, NoTask, [Ready], None, 0), false, None, log)
  {
    ChangesAppend([], Frame<E>.Ready);
    assert [] + [Frame<E>.Ready] == [Frame<E>.Ready];
  }

  lemma ConnectKeeps<E>(s: State<E>, k: nat)
    requires Inv(s) && Enabled(s, Connect(k))
    ensures Inv(Next(s, Connect(k)))
  {
    ConnectFits(s.log);
    OthersStay(s, Next(s, Connect(k)), k);
  }

  lemma ReleasedFits<E>(before: Client<E>, client: Client<E>, queue: Option<seq<E>>, log: seq<E>)
    requires Fits(before, true, queue, log)
    requires client.base == before.base && client.removals == before.removals
    requires client.frames == before.frames && client.task.NoTask?
    requires client.phase.AwaitingRead? || client.phase.Closed?
    ensures Fits(client.(subscription := Finished, removals := client.removals + 1), false, None, log)
  {
  }

  /** One client off the hub's list and its queue gone: nobody else notices. */
  lemma OthersRemain<E>(s: State<E>, k: nat, client: Client<E>, j: nat)
    requires Distinct(s.subscribers) && k in s.clients && j != k
    ensures IsSame(s, Released(s, k, client), j)
  {
    RemovedIs(s.subscribers, k);
  }

  /** The subscription's `finally` runs once, and only its own queue goes. */
  lemma ReleasedKeeps<E>(s: State<E>, k: nat, client: Client<E>)
    requires Inv(s) && k in s.clients && IsRegistered(s.clients[k])
    requires client.base == s.clients[k].base && client.removals == s.clients[k].removals
    requires client.frames == s.clients[k].frames && client.task.NoTask?
    requires client.phase.AwaitingRead? || client.phase.Closed?
    ensures Inv(Released(s, k, client))
  {
    var t := Released(s, k, client);
    assert ClientOk(s, k);
    ReleasedFits(s.clients[k], client, QueueOf(s, k), s.log);
    RemovedIs(s.subscribers, k);
    assert k !in t.subscribers && QueueOf(t, k) == None;
    forall j: nat | j != k ensures IsSame(s, t, j) {
      OthersRemain(s, k, client, j);
    }
    OthersStay(s, t, k);
  }

  lemma AbortKeeps<E>(s: State<E>, k: nat)
    requires Inv(s) && Enabled(s, Abort(k))
    ensures Inv(Next(s, Abort(k)))
  {
    assert ClientOk(s, k);
    var client := s.clients[k].(task := NoTask);
    if s.clients[k].task.Getting? {
      ReleasedKeeps(s, k, client);
    } else {
      QuietKeeps(s, k, client);
    }
  }

  lemma CloseKeeps<E>(s: State<E>, k: nat)
    requires Inv(s) && Enabled(s, Close(k))
    ensures Inv(Next(s, Close(k)))
  {
    assert ClientOk(s, k);
    var client := s.clients[k].(phase := Closed, task := NoTask);
    if client.subscription.AtYield? {
      ReleasedKeeps(s, k, client);
    } else {
      PutKeeps(s, k, client.(subscription := Finished));
    }
  }

  /** The remaining steps move one client to another phase. */
  lemma PhaseKeeps<E>(s: State<E>, step: Step<E>)
    requires Inv(s) && Enabled(s, step)
    requires step.Resume? || step.Timeout? || step.Drop? || step.Cancel? || step.Awaited?
    ensures Inv(Next(s, step))
  {
    assert ClientOk(s, step.k);
    PhaseIsQuiet(s, step);
    QuietKeeps(s, step.k, Next(s, step).clients[step.k]);
  }

  lemma PhaseIsQuiet<E>(s: State<E>, step: Step<E>)
    requires Enabled(s, step) && (step.Resume? || step.Timeout? || step.Drop? || step.Cancel? || step.Awaited?)
    requires TaskFits(s.clients[step.k]) && s.clients[step.k].frames != [] && s.clients[step.k].frames[0] == Ready
    ensures IsQuiet(s.clients[step.k], Next(s, step).clients[step.k])
    ensures Next(s, step) == Put(s, step.k, Next(s, step).clients[step.k])
  {
  }

  /** Every step of every client, and every fan-out, keeps the invariant. */
  lemma StepKeeps<E>(s: State<E>, step: Step<E>)
    requires Inv(s) && Enabled(s, step)
    ensures Inv(Next(s, step))
  {
    match step {
      case FanOut(event) => FanOutKeeps(s, event);
      case Connect(k) => ConnectKeeps(s, k);
      case StartTask(k) => StartKeeps(s, k);
      case Deliver(k) => DeliverKeeps(s, k);
      case Wake(k) => WakeKeeps(s, k);
      case Checked(k, disconnected, stale) => CheckedKeeps(s, k, disconnected, stale);
      case Abort(k) => AbortKeeps(s, k);
      case Close(k) => CloseKeeps(s, k);
      case _ => PhaseKeeps(s, step);
    }
  }

  lemma {:induction false} RunKeeps<E>(s: State<E>, steps: seq<Step<E>>)
    requires Inv(s) && IsRun(s, steps)
    ensures Inv(After(s, steps))
    decreases |steps|
  {
    if steps != [] {
      StepKeeps(s, steps[0]);
      RunKeeps(Next(s, steps[0]), steps[1..]);
    }
  }

  // ---- Delivery -----------------------------------------------------------------------

  /** Whatever the schedule of fan-outs, heartbeats and other clients: a client's change
      frames are the events fanned out since its queue was registered, from the first, in
      order, without gap or duplicate; what it has not yielded yet is held by its pending
      read and its queue, in order; and the handshake comes first. */
  lemma Delivery<E>(steps: seq<Step<E>>, k: nat)
    requires IsRun(Initial(), steps) && k in After(Initial(), steps).clients
    ensures
      var t := After(Initial(), steps);
      var client := t.clients[k];
      && client.frames != [] && client.frames[0] == Ready
      && (client.base.None? ==> Changes(client.frames) == [])
      && (client.base.Some? ==>
           client.base.value <= |t.log| && IsPrefix(Changes(client.frames), t.log[client.base.value..]))
      && (k in t.queues ==>
           client.base.Some? && Owned(Changes(client.frames), client.task, t.queues[k]) == t.log[client.base.value..])
      && (client.base.Some? && !IsEnding(client.phase) ==> k in t.queues)
  {
    RunKeeps(Initial(), steps);
    var t := After(Initial(), steps);
    var client := t.clients[k];
    assert ClientOk(t, k);
    if client.base.Some? {
      SinceIs(t.log, client.base.value);
    }
  }

  /** Cancelling the pending read may itself run the subscription's `finally`, and `aclose()`
      follows whatever state that left the subscription in. A queue is on the hub, once,
      exactly while it has been registered and not been removed; nothing removes it before
      the client's own `finally`; it is never removed twice; once the client is closed it has
      been removed exactly if it was registered; and `aclose()` never meets a subscription
      that is still running. */
  lemma RemovedExactlyOnce<E>(steps: seq<Step<E>>, k: nat)
    requires IsRun(Initial(), steps) && k in After(Initial(), steps).clients
    ensures
      var t := After(Initial(), steps);
      var client := t.clients[k];
      && Distinct(t.subscribers)
      && (k in t.subscribers <==> client.base.Some? && client.removals == 0)
      && (client.removals > 0 ==> client.base.Some? && IsEnding(client.phase))
      && client.removals <= 1
      && (client.phase.Closed? ==> (client.removals == 1 <==> client.base.Some?))
      && (client.phase.Closing? ==> !client.subscription.InGet?)
  {
    RunKeeps(Initial(), steps);
    RemovedOnce(After(Initial(), steps), k);
  }

  lemma RemovedOnce<E>(t: State<E>, k: nat)
    requires Inv(t) && k in t.clients
    ensures k in t.subscribers <==> t.clients[k].base.Some? && t.clients[k].removals == 0
    ensures t.clients[k].removals <= 1
    ensures t.clients[k].removals > 0 ==> t.clients[k].base.Some? && IsEnding(t.clients[k].phase)
    ensures t.clients[k].phase.Closed? ==> (t.clients[k].removals == 1 <==> t.clients[k].base.Some?)
    ensures t.clients[k].phase.Closing? ==> !t.clients[k].subscription.InGet?
  {
    assert ClientOk(t, k);
  }

  /** `finally` of one client, with nothing in between. */
  function Cancelled<E>(s: State<E>, k: nat): State<E>
    requires Enabled(s, Cancel(k))
  {
    var t := Next(s, Cancel(k));
    if IsPending(t.clients[k].task) then Next(t, Abort(k)) else t
  }

  function CleanedUp<E>(s: State<E>, k: nat): State<E>
    requires Enabled(s, Cancel(k))
  {
    Next(Next(Cancelled(s, k), Awaited(k)), Close(k))
  }

  /** It always gets to its end, and then the client is off the hub. */
  lemma CleanUpCompletes<E>(s: State<E>, k: nat)
    requires Inv(s) && Enabled(s, Cancel(k))
    ensures
      var t := CleanedUp(s, k);
      && k in t.clients && t.clients[k].phase.Closed? && k !in t.subscribers
      && t.clients[k].removals == (if s.clients[k].base.Some? then 1 else 0)
  {
    PhaseKeeps(s, Cancel(k));
    var t := Next(s, Cancel(k));
    if IsPending(t.clients[k].task) {
      AbortKeeps(t, k);
    }
    Ended(Cancelled(s, k), k);
  }

  lemma Ended<E>(s: State<E>, k: nat)
    requires Inv(s) && Enabled(s, Awaited(k))
    ensures
      var t := Next(Next(s, Awaited(k)), Close(k));
      && k in t.clients && t.clients[k].phase.Closed? && k !in t.subscribers
      && t.clients[k].removals == (if s.clients[k].base.Some? then 1 else 0)
  {
    var t := Next(s, Awaited(k));
    PhaseKeeps(s, Awaited(k));
    CloseKeeps(t, k);
    RemovedOnce(Next(t, Close(k)), k);
  }

  // ---- The hub object -----------------------------------------------------------------

  /** The queues in the order of the hub's list. */
  function HubView<E>(s: State<E>): seq<seq<E>> { Listed(s.subscribers, s.queues) }

  function Listed<E>(subscribers: seq<nat>, queues: map<nat, seq<E>>): seq<seq<E>> {
    seq(|subscribers|,
        i requires 0 <= i < |subscribers| => if subscribers[i] in queues then queues[subscribers[i]] else [])
  }

  function Position(items: seq<nat>, k: nat): (i: nat)
    requires k in items
    ensures i < |items| && items[i] == k
  {
    if items[0] == k then 0 else 1 + Position(items[1..], k)
  }

  /** The hub once one client's queue is off it. */
  function HubWithout<E>(s: State<E>, k: nat): seq<seq<E>> {
    if k in s.subscribers then Without(HubView(s), Position(s.subscribers, k)) else HubView(s)
  }

  /** The hub once one event has been taken from a queue. */
  function HubTaken<E>(s: State<E>, k: nat): seq<seq<E>> {
    if k in s.subscribers && k in s.queues && s.queues[k] != []
    then HubView(s)[Position(s.subscribers, k) := s.queues[k][1..]]
    else HubView(s)
  }

  /** What a step asks of the hub object. */
  function HubAfter<E>(s: State<E>, step: Step<E>): seq<seq<E>>
    requires Enabled(s, step)
  {
    match step
    case FanOut(event) => Hub.FannedOut(HubView(s), event)
    case StartTask(k) => if s.clients[k].subscription.Unstarted? then HubView(s) + [[]] else HubView(s)
    case Deliver(k) => HubTaken(s, k)
    case Abort(k) => if s.clients[k].task.Getting? then HubWithout(s, k) else HubView(s)
    case Close(k) => if s.clients[k].subscription.AtYield? then HubWithout(s, k) else HubView(s)
    case _ => HubView(s)
  }

  lemma {:induction false} RemovedAt(items: seq<nat>, k: nat)
    requires k in items
    ensures Removed(items, k) == Without(items, Position(items, k))
  {
    if items[0] != k {
      RemovedAt(items[1..], k);
    }
  }

  lemma ListedWithout<E>(subscribers: seq<nat>, queues: map<nat, seq<E>>, k: nat, i: nat)
    requires Distinct(subscribers) && i < |subscribers| && subscribers[i] == k
    ensures Listed(Without(subscribers, i), queues - {k}) == Without(Listed(subscribers, queues), i)
  {
    var left := Without(subscribers, i);
    forall j | 0 <= j < |left| ensures left[j] != k && left[j] == subscribers[if j < i then j else j + 1] {
    }
  }

  lemma ListedTaken<E>(subscribers: seq<nat>, queues: map<nat, seq<E>>, k: nat, i: nat, queue: seq<E>)
    requires Distinct(subscribers) && i < |subscribers| && subscribers[i] == k
    ensures Listed(subscribers, queues[k := queue]) == Listed(subscribers, queues)[i := queue]
  {
  }

  lemma ListedJoined<E>(subscribers: seq<nat>, queues: map<nat, seq<E>>, k: nat)
    requires k !in subscribers
    ensures Listed(subscribers + [k], queues[k := []]) == Listed(subscribers, queues) + [[]]
  {
  }

  lemma ListedFannedOut<E>(s: State<E>, event: E)
    requires forall k :: k in s.subscribers ==> k in s.queues
    ensures HubView(Next(s, FanOut(event))) == Hub.FannedOut(HubView(s), event)
  {
  }

  lemma ReleasedIs<E>(s: State<E>, k: nat, client: Client<E>)
    requires Distinct(s.subscribers) && k in s.subscribers
    ensures HubView(Released(s, k, client)) == HubWithout(s, k)
  {
    RemovedAt(s.subscribers, k);
    ListedWithout(s.subscribers, s.queues, k, Position(s.subscribers, k));
  }

  /** Every step changes the hub as the hub object's own methods do: a fan-out, a
      registration, a removal, one event taken from one queue, or nothing. */
  lemma HubFollows<E>(s: State<E>, step: Step<E>)
    requires Inv(s) && Enabled(s, step)
    ensures HubView(Next(s, step)) == HubAfter(s, step)
  {
    forall k | k in s.subscribers ensures k in s.queues {
      assert ClientOk(s, k);
    }
    match step {
      case FanOut(event) => ListedFannedOut(s, event);
      case StartTask(k) =>
        assert ClientOk(s, k);
        if s.clients[k].subscription.Unstarted? {
          ListedJoined(s.subscribers, s.queues, k);
        }
      case Deliver(k) =>
        assert ClientOk(s, k);
        ListedTaken(s.subscribers, s.queues, k, Position(s.subscribers, k), s.queues[k][1..]);
      case Abort(k) =>
        assert ClientOk(s, k);
        if s.clients[k].task.Getting? {
          ReleasedIs(s, k, s.clients[k].(task := NoTask));
        }
      case Close(k) =>
        assert ClientOk(s, k);
        if s.clients[k].subscription.AtYield? {
          ReleasedIs(s, k, s.clients[k].(phase := Closed, task := NoTask));
        }
      case _ =>
    }
  }
}
