/** The in-process broker: one FIFO queue per live subscription, grouped by session. */
module Broker {
  import opened Events

  class Queue {
    var items: seq<Event>

    constructor ()
      ensures items == []
    {
      items := [];
    }
  }

  class InMemoryBroker {
    var subscribers: map<SessionId, set<Queue>>

    /** The live subscriptions of a session. */
    function Queues(session: SessionId): set<Queue>
      reads this
    {
      if session in subscribers then subscribers[session] else {}
    }

    /** A queue is registered under one session only. */
    ghost predicate Valid()
      reads this
    {
      forall s, t :: s != t ==> Queues(s) !! Queues(t)
    }

    constructor ()
      ensures Valid()
      ensures forall s :: Queues(s) == {}
    {
      subscribers := map[];
    }

    method Subscribe(session: SessionId) returns (queue: Queue)
      requires Valid()
      modifies this
      ensures Valid()
      ensures fresh(queue) && queue.items == []
      ensures Queues(session) == old(Queues(session)) + {queue}
      ensures forall s :: s != session ==> Queues(s) == old(Queues(s))
    {
      queue := new Queue();
      subscribers := subscribers[session := Queues(session) + {queue}];
      assert forall s :: s != session ==> Queues(s) == old(Queues(s));
      assert forall s :: queue !in old(Queues(s));
      forall s, t | s != t ensures Queues(s) !! Queues(t) {
        assert old(Queues(s)) !! old(Queues(t));
      }
    }

    /** Every live subscription of the session gets the event at its end; no other queue changes. */
    method Publish(session: SessionId, event: Event)
      requires Valid()
      modifies Queues(session)
      ensures Valid()
      ensures forall q :: q in Queues(session) ==> q.items == old(q.items) + [event]
      ensures forall s, q :: s != session && q in Queues(s) ==> q.items == old(q.items)
    {
      var pending := Queues(session);
      while pending != {}
        invariant pending <= Queues(session)
        invariant forall q :: q in pending ==> q.items == old(q.items)
        invariant forall q :: q in Queues(session) - pending ==> q.items == old(q.items) + [event]
        decreases |pending|
      {
        var queue :| queue in pending;
        queue.items := queue.items + [event];
        pending := pending - {queue};
      }
    }

    /** `InMemoryEventSubscription.close`: the queue gets nothing more, whatever is published later. */
    method Unsubscribe(session: SessionId, queue: Queue)
      requires Valid() && queue in Queues(session)
      modifies this
      ensures Valid()
      ensures forall s :: queue !in Queues(s)
      ensures forall s :: Queues(s) == old(Queues(s)) - {queue}
    {
      assert forall s :: s != session ==> Queues(s) !! Queues(session);
      subscribers := subscribers[session := Queues(session) - {queue}];
      assert forall s :: s != session ==> Queues(s) == old(Queues(s)) && queue !in Queues(s);
      forall s, t | s != t ensures Queues(s) !! Queues(t) {
        assert old(Queues(s)) !! old(Queues(t));
      }
    }
  }
}
