/** The stream generator and the browser's event list as the objects they are, proved against the
    functions of Stream and Delivery. */
module StreamServer {
  import opened Events
  import opened Stream
  import opened Wrappers
  import D = Delivery
  import B = Broker

  /** Send the rows of a page one after the other. */
  function SendPage(k: Conn): Conn
    decreases if k.phase.Sending? then |k.phase.rest| else 0
  {
    if k.phase.Sending? && k.phase.rest != [] then SendPage(SendRow(k)) else k
  }

  function Frames(rows: seq<Event>): (r: seq<Frame>)
    ensures |r| == |rows| && forall i :: 0 <= i < |rows| ==> r[i] == Ev(rows[i])
  {
    seq(|rows|, i requires 0 <= i < |rows| => Ev(rows[i]))
  }

  class EventStream {
    const session: SessionId
    const queueSize: int
    const subscription: B.Queue
    var lastSentId: int
    var liveQueue: seq<Item>
    var producing: bool
    ghost var conn: Conn

    ghost predicate Valid()
      reads this, subscription
    {
      && lastSentId == conn.lastSent
      && conn.pumped <= |conn.received|
      && subscription.items == conn.received[conn.pumped..]
      && liveQueue == conn.queue
      && producing == conn.pumping
      && (conn.phase.Reading? || conn.phase.Sending? ==> !conn.pumping)
    }

    constructor (session: SessionId, queueSize: int, afterId: int, subscription: B.Queue)
      requires subscription.items == []
      ensures Valid() && conn == Subscribe(afterId)
      ensures this.session == session && this.queueSize == queueSize && this.subscription == subscription
    {
      this.session := session;
      this.queueSize := queueSize;
      this.subscription := subscription;
      lastSentId := afterId;
      liveQueue := [];
      producing := false;
      conn := Subscribe(afterId);
    }

    /** The stream subscribes before it does anything else. */
    static method Open(broker: B.InMemoryBroker, session: SessionId, queueSize: int, afterId: int) returns (stream: EventStream)
      requires broker.Valid()
      modifies broker
      ensures broker.Valid() && fresh(stream) && stream.Valid()
      ensures stream.session == session && stream.queueSize == queueSize && stream.conn == Subscribe(afterId)
      ensures stream.subscription in broker.Queues(session)
    {
      var queue := broker.Subscribe(session);
      stream := new EventStream(session, queueSize, afterId, queue);
    }

    /** What the broker puts into a live subscription is what the step system offers the connection, and a
        publish to another session offers it nothing. */
    static method Publish(broker: B.InMemoryBroker, stream: EventStream, session: SessionId, event: Event)
      requires broker.Valid() && stream.Valid() && !stream.conn.phase.Ended?
      requires stream.subscription in broker.Queues(stream.session)
      modifies broker.Queues(session), stream`conn
      ensures broker.Valid() && stream.Valid()
      ensures stream.conn == if session == stream.session then Offer(old(stream.conn), event) else old(stream.conn)
    {
      assert session != stream.session ==> broker.Queues(session) !! broker.Queues(stream.session);
      broker.Publish(session, event);
      if session == stream.session { stream.conn := Offer(stream.conn, event); }
    }

    /** The end of the generator: no publish reaches the subscription any more. */
    static method Close(broker: B.InMemoryBroker, stream: EventStream)
      requires broker.Valid() && stream.Valid() && stream.subscription in broker.Queues(stream.session)
      modifies broker
      ensures broker.Valid() && stream.Valid() && stream.conn == old(stream.conn)
      ensures forall s :: stream.subscription !in broker.Queues(s)
    {
      broker.Unsubscribe(stream.session, stream.subscription);
    }

    /** One turn of the replay loop: read a page, send its rows, and stop when the page was not full. */
    method ReplayPage(table: seq<Event>) returns (frames: seq<Frame>, more: bool)
      requires Valid() && conn.phase.Reading?
      modifies this
      ensures Valid()
      ensures conn == SendPage(ReadPage(old(conn), session, table))
      ensures frames == Frames(ListAfter(table, session, old(lastSentId), PAGE_SIZE))
      ensures more <==> conn.phase.Reading?
    {
      var events := ListAfter(table, session, lastSentId, PAGE_SIZE);
      frames, more := [], false;
      conn := ReadPage(conn, session, table);
      if events == [] {
        producing := true;
        return;
      }
      ghost var start := conn;
      var i := 0;
      while i < |events|
        invariant 0 <= i <= |events|
        invariant Valid()
        invariant frames == Frames(events[..i])
        invariant i < |events| ==> conn.phase == Sending(events[i..], |events| < PAGE_SIZE) && !producing
        invariant i == |events| ==> conn.phase == (if |events| < PAGE_SIZE then Streaming else Reading)
        invariant SendPage(conn) == SendPage(start)
      {
        var event := events[i];
        lastSentId := event.id;
        frames := frames + [Ev(event)];
        conn := SendRow(conn);
        if i + 1 == |events| && |events| < PAGE_SIZE { producing := true; }
        i := i + 1;
      }
      assert events[..|events|] == events;
      more := |events| == PAGE_SIZE;
    }

    /** One event through the pump: queue it, or collapse a full queue to the overflow marker and stop. */
    method PumpOnce()
      requires Valid() && producing && subscription.items != []
      modifies this, subscription
      ensures Valid() && conn == PumpOne(old(conn), queueSize)
    {
      var event := subscription.items[0];
      subscription.items := subscription.items[1..];
      if Full(liveQueue, queueSize) {
        while liveQueue != []
          invariant subscription.items == old(subscription.items)[1..]
          invariant producing && conn == old(conn) && lastSentId == old(lastSentId)
          decreases |liveQueue|
        {
          liveQueue := liveQueue[1..];
        }
        liveQueue := liveQueue + [Overflow];
        producing := false;
      } else {
        liveQueue := liveQueue + [Live(event)];
      }
      conn := PumpOne(conn, queueSize);
    }

    /** One item out of the live queue; `done` when the generator returns. */
    method Next() returns (frames: seq<Frame>, done: bool)
      requires Valid() && conn.phase.Streaming? && liveQueue != []
      modifies this
      ensures Valid() && conn == Take(old(conn))
      ensures frames == TakeFrames(old(conn))
      ensures done <==> conn.phase.Ended?
    {
      var item := liveQueue[0];
      liveQueue := liveQueue[1..];
      frames, done := [], false;
      if item.Overflow? {
        frames, done := [Reset], true;
      } else if item.event.id > lastSentId {
        lastSentId := item.event.id;
        frames := [Ev(item.event)];
      }
      conn := Take(conn);
    }
  }

  class BrowserState {
    var session: SessionId
    var events: seq<Event>
    var lastEventId: int
    var selectionVersion: int
    var source: D.Source

    function View(): D.Browser
      reads this
    {
      D.Browser(session, events, lastEventId, selectionVersion, source)
    }

    constructor ()
      ensures View() == D.INITIAL.browser
    {
      session, events, lastEventId, selectionVersion, source := "", [], 0, 0, D.Unconnected;
    }

    method AddEvent(event: Event)
      modifies this
      ensures View() == D.AddEvent(old(View()), event)
    {
      if event.id != 0 {
        var i := 0;
        while i < |events|
          invariant 0 <= i <= |events|
          invariant forall j :: 0 <= j < i ==> events[j].id != event.id
        {
          if events[i].id == event.id { return; }
          i := i + 1;
        }
        lastEventId := D.Max(lastEventId, event.id);
      }
      events := SortById(events + [event]);
    }

    method CloseEventStream()
      modifies this
      ensures View() == old(View()).(source := D.Unconnected)
    {
      source := D.Unconnected;
    }

    /** The open stream, whatever it is, makes room for one from the cursor. */
    method ConnectEventStream(sessionId: SessionId, version: int)
      modifies this
      ensures View() == D.Connected(old(View()), sessionId, version)
    {
      CloseEventStream();
      source := D.Open(sessionId, version, lastEventId, 0);
    }

    /** A message: the source notes its id, the handler adds the event if the stream is of the current selection. */
    method HandleStreamMessage(event: Event)
      modifies this
      ensures View() == D.Noticed(old(View()), event)
    {
      if source.Open? {
        source := source.(lastId := event.id);
        if source.version == selectionVersion { AddEvent(event); }
      }
    }

    /** The handler of a reset up to its request, if it makes one. */
    method HandleReset() returns (request: Option<D.Request>)
      modifies this
      ensures D.Current(old(View())) ==>
        request == Some(D.Recovering(old(View()))) && View() == old(View()).(source := D.Unconnected)
      ensures !D.Current(old(View())) ==> request == None && View() == old(View())
    {
      if !source.Open? || source.version != selectionVersion { return None; }
      source := D.Unconnected;
      request := Some(D.Request(D.Recovery, session, selectionVersion, lastEventId, None));
    }

    /** The history page added row by row; no version is compared. */
    method ReloadHistory(page: seq<Event>)
      modifies this
      ensures View() == D.AddAll(old(View()), page)
    {
      var i := 0;
      while i < |page|
        invariant 0 <= i <= |page|
        invariant D.AddAll(View(), page[i..]) == D.AddAll(old(View()), page)
      {
        AddEvent(page[i]);
        i := i + 1;
      }
    }

    /** The handler of a reset from its page on. */
    method FinishReset(request: D.Request)
      requires request.purpose.Recovery? && request.page.Some?
      modifies this
      ensures View() == D.Resumed(old(View()), request)
    {
      ReloadHistory(request.page.value);
      ConnectEventStream(request.session, request.version);
    }

    /** A selection up to its request: a new version, and the stream is closed. */
    method Select(sessionId: SessionId) returns (request: D.Request)
      modifies this
      ensures View() == D.Reselected(old(View()))
      ensures request == D.Selecting(sessionId, View().version)
    {
      selectionVersion := selectionVersion + 1;
      CloseEventStream();
      request := D.Request(D.Selection, sessionId, selectionVersion, 0, None);
    }

    /** A selection from its page on: outdated, it does nothing; otherwise the page replaces the list, and the
        cursor is its largest id. */
    method FinishSelection(request: D.Request)
      requires request.purpose.Selection? && request.page.Some?
      modifies this
      ensures View() == D.Resumed(old(View()), request)
    {
      if request.version != selectionVersion { return; }
      session, events := request.session, request.page.value;
      var largest, i := 0, 0;
      while i < |events|
        invariant 0 <= i <= |events|
        invariant View() == old(View()).(session := request.session, events := request.page.value)
        invariant largest == D.LargestId(events[..i])
      {
        largest := D.Max(largest, events[i].id);
        assert events[..i + 1][..i] == events[..i];
        i := i + 1;
      }
      assert events[..|events|] == events;
      lastEventId := largest;
      ConnectEventStream(request.session, request.version);
    }
  }
}
