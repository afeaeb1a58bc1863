/** The subscriber hub: one queue per client, filled by fan-out (file_adapter/watcher.py). */
module Hub {
  import opened Common

  // ---- The hub's queues as a value ----------------------------------------------------

  /** Every queue gets the event at its end. */
  function FannedOut<E>(contents: seq<seq<E>>, event: E): seq<seq<E>> {
    seq(|contents|, i requires 0 <= i < |contents| => contents[i] + [event])
  }

  // ---- The hub as an object -----------------------------------------------------------

  /** `asyncio.Queue`, unbounded. */
  class EventQueue<E> {
    var items: seq<E>

    constructor ()
      ensures items == []
    {
      items := [];
    }
  }

  /** `_SubscriberHub`. */
  class SubscriberHub<E> {
    var subscribers: seq<EventQueue<E>>

    constructor ()
      ensures subscribers == [] && Valid()
    {
      subscribers := [];
    }

    /** Each queue is registered once. */
    ghost predicate Valid()
      reads this
    {
      Distinct(subscribers)
    }

    ghost function Contents(): seq<seq<E>>
      reads this, subscribers
    {
      seq(|subscribers|, i requires 0 <= i < |subscribers| reads this, subscribers => subscribers[i].items)
    }

    /** `fan_out`, over a snapshot of the list. */
    method FanOut(event: E)
      requires Valid()
      modifies set q | q in subscribers
      ensures subscribers == old(subscribers)
      ensures Contents() == FannedOut(old(Contents()), event)
      ensures forall q :: q in subscribers ==> q.items == old(q.items) + [event]
    {
      var snapshot := subscribers;
      for i := 0 to |snapshot|
        invariant subscribers == snapshot
        invariant forall k :: 0 <= k < i ==> snapshot[k].items == old(snapshot[k].items) + [event]
        invariant forall k :: i <= k < |snapshot| ==> snapshot[k].items == old(snapshot[k].items)
      {
        snapshot[i].items := snapshot[i].items + [event];
      }
    }

    /** The first await of `subscribe`. */
    method Register() returns (queue: EventQueue<E>)
      requires Valid()
      modifies this
      ensures fresh(queue) && queue.items == []
      ensures subscribers == old(subscribers) + [queue] && Valid()
      ensures Contents() == old(Contents()) + [[]]
    {
      queue := new EventQueue<E>();
      subscribers := subscribers + [queue];
    }

    /** The `finally` of `subscribe`: `list.remove`. */
    method Unregister(queue: EventQueue<E>)
      requires Valid() && queue in subscribers
      modifies this
      ensures Valid() && queue !in subscribers
      ensures exists i :: 0 <= i < |old(subscribers)| && old(subscribers)[i] == queue
                          && subscribers == Without(old(subscribers), i)
                          && Contents() == Without(old(Contents()), i)
    {
      var i := 0;
      while i < |subscribers| && subscribers[i] != queue
        invariant 0 <= i <= |subscribers| && subscribers == old(subscribers)
        invariant queue !in subscribers[..i]
      {
        assert subscribers[..i + 1] == subscribers[..i] + [subscribers[i]];
        i := i + 1;
      }
      assert subscribers[..|subscribers|] == subscribers;
      subscribers := Without(subscribers, i);
    }
  }

}
