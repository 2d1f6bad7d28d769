/** What every run of the delivery protocol keeps, with no hypothesis on how appends overlap. */
module DeliverySafety {
  import opened Events
  import opened Stream
  import opened Delivery
  import opened Wrappers

  function LastId(es: seq<Event>, default: int): int {
    if es == [] then default else es[|es| - 1].id
  }

  /** The configuration whose session is that of the browser's stream. */
  function Of(c: Config, b: Browser): Config {
    if b.source.Open? then c.(session := b.source.session) else c
  }

  /** Every element is a committed row of the session. */
  ghost predicate Committed(c: Config, table: seq<Event>, es: seq<Event>) {
    forall e :: e in es ==> e in table && e.session == c.session
  }

  ghost predicate AllAbove(es: seq<Event>, id: int) {
    forall e :: e in es ==> e.id > id
  }

  ghost predicate TableInv(s: System) {
    && 0 < s.nextId
    && DistinctIds(s.table)
    && (forall e :: e in s.table ==> 0 < e.id < s.nextId)
    && (forall e :: e in s.inserted ==> 0 < e.id < s.nextId)
    && (forall e, f :: e in s.inserted && f in s.table ==> e.id != f.id)
    && (forall e, f :: e in s.inserted && f in s.inserted && e.id == f.id ==> e == f)
    && (forall e :: e in s.unpublished ==> e in s.table)
    && (forall e :: e in s.failed ==> e in s.table)
    && s.unpublished !! s.failed
  }

  /** The live queue holds the next contiguous part of the subscription, or just the overflow marker. */
  ghost predicate QueueInv(c: Config, k: Conn) {
    && k.taken <= k.pumped <= |k.received|
    && (0 < c.queueSize ==> |k.queue| <= c.queueSize)
    && match k.phase {
         case Streaming =>
           if k.pumping
           then |k.queue| == k.pumped - k.taken
                && forall i :: 0 <= i < |k.queue| ==> k.queue[i] == Live(k.received[k.taken + i])
           else k.queue == [Overflow]
         case Ended => k.queue == []
         case _ => k.queue == [] && k.pumped == 0 && !k.pumping
       }
  }

  ghost predicate ConnInv(c: Config, table: seq<Event>, k: Conn) {
    && Committed(c, table, k.received)
    && Committed(c, table, k.emitted)
    && Sorted(k.emitted)
    && AllAbove(k.emitted, k.afterId)
    && k.lastSent == LastId(k.emitted, k.afterId)
    && (k.phase.Sending? ==>
          && k.phase.rest != []
          && Sorted(k.phase.rest)
          && AllAbove(k.phase.rest, k.lastSent)
          && Committed(c, table, k.phase.rest))
    && QueueInv(c, k)
  }

  /** What the browser has received of a connection is a prefix of what the connection emitted. */
  ghost predicate WireInv(k: Conn, wire: seq<Frame>, b: Browser) {
    var pending := EventsOf(wire);
    && |pending| <= |k.emitted|
    && pending == k.emitted[|k.emitted| - |pending|..]
    && b.lastEventId == LastId(k.emitted[..|k.emitted| - |pending|], k.afterId)
    && (forall e :: e in k.emitted[..|k.emitted| - |pending|] ==> e in b.events)
  }

  /** Every row is committed. */
  ghost predicate Stored(table: seq<Event>, es: seq<Event>) {
    forall e :: e in es ==> e in table
  }

  ghost predicate BrowserInv(table: seq<Event>, b: Browser) {
    && Sorted(b.events)
    && Stored(table, b.events)
    && b.lastEventId == LastId(b.events, 0)
    && (Current(b) ==> Cursor(b.source) == b.lastEventId)
  }

  /** The pages still to be added hold committed rows of their session after the id they were asked for. */
  ghost predicate RequestsInv(table: seq<Event>, requests: set<Request>) {
    forall r :: r in requests ==> RequestInv(table, r)
  }

  ghost predicate RequestInv(table: seq<Event>, r: Request) {
    && 0 <= r.afterId
    && (r.purpose.Selection? ==> r.afterId == 0)
    && (r.page.Some? ==> PageInv(table, r.session, r.afterId, r.page.value))
  }

  ghost predicate PageInv(table: seq<Event>, session: SessionId, afterId: int, page: seq<Event>) {
    Sorted(page) && AllAbove(page, afterId) && forall e :: e in page ==> e in table && e.session == session
  }

  /** Frames on the wire mean something to a browser that heeds the stream only. */
  ghost predicate StreamInv(c: Config, s: System) {
    match s.conn
    case None => s.wire == []
    case Some(k) =>
      && ConnInv(Of(c, s.browser), s.table, k)
      && s.browser.source.Open?
      && (Current(s.browser) ==> WireInv(k, s.wire, s.browser))
  }

  ghost predicate Inv(c: Config, s: System) {
    && TableInv(s)
    && BrowserInv(s.table, s.browser)
    && RequestsInv(s.table, s.requests)
    && StreamInv(c, s)
  }

  // ---------- rows and sorted lists ----------

  lemma SameRow(table: seq<Event>, e: Event, f: Event)
    requires DistinctIds(table) && e in table && f in table && e.id == f.id
    ensures e == f
  {
    var i :| 0 <= i < |table| && table[i] == e;
    var j :| 0 <= j < |table| && table[j] == f;
  }

  lemma LastIsLargest(es: seq<Event>, e: Event, default: int)
    requires Sorted(es) && e in es
    ensures e.id <= LastId(es, default)
  {
    var i :| 0 <= i < |es| && es[i] == e;
  }

  lemma AppendSorted(es: seq<Event>, e: Event, default: int)
    requires Sorted(es) && LastId(es, default) < e.id
    ensures Sorted(es + [e])
  {
  }

  lemma {:induction false} SortedLargest(es: seq<Event>)
    requires Sorted(es) && AllAbove(es, 0)
    ensures LargestId(es) == LastId(es, 0)
  {
    if es != [] {
      var n := |es| - 1;
      SortedLargest(es[..n]);
      assert es[n] in es;
    }
  }

  lemma AddNew(b: Browser, e: Event)
    requires Sorted(b.events) && b.lastEventId == LastId(b.events, 0)
    requires 0 <= b.lastEventId < e.id
    ensures AddEvent(b, e) == b.(events := b.events + [e], lastEventId := e.id)
  {
    forall i | 0 <= i < |b.events| ensures b.events[i].id != e.id {
      LastIsLargest(b.events, b.events[i], 0);
    }
    SortOfSorted(b.events + [e]);
  }

  lemma TailAbove(es: seq<Event>)
    requires Sorted(es) && es != []
    ensures Sorted(es[1..]) && AllAbove(es[1..], es[0].id)
  {
    forall e | e in es[1..] ensures e.id > es[0].id {
      var i :| 0 <= i < |es[1..]| && es[1..][i] == e;
      assert es[i + 1] == e;
    }
  }

  /** The last id of a sorted list with these rows. */
  lemma LastIs(es: seq<Event>, e: Event)
    requires Sorted(es) && e in es && forall x :: x in es ==> x.id <= e.id
    ensures LastId(es, 0) == e.id
  {
    LastIsLargest(es, e, 0);
    assert es[|es| - 1] in es;
  }

  lemma DistinctMore(table: seq<Event>, es: seq<Event>, e: Event)
    requires DistinctIds(table) && Sorted(es) && Stored(table, es) && e in table && e !in es
    ensures DistinctIds(es + [e]) && !Shown(es, e.id)
  {
    forall i | 0 <= i < |es| ensures es[i].id != e.id {
      assert es[i] in es;
      if es[i].id == e.id { SameRow(table, es[i], e); }
    }
  }

  lemma AddsNew(table: seq<Event>, b: Browser, e: Event)
    requires DistinctIds(table) && Sorted(b.events) && e in table && e !in b.events && 0 < e.id
    requires Stored(table, b.events)
    ensures var b' := AddEvent(b, e);
      && b' == b.(events := SortById(b.events + [e]), lastEventId := Max(b.lastEventId, e.id))
      && Sorted(b'.events)
      && (forall x :: x in b'.events <==> x in b.events || x == e)
  {
    DistinctMore(table, b.events, e);
    SortByIdCorrect(b.events + [e]);
  }

  /** The cursor of a list that one row has joined. */
  lemma CursorMerges(es: seq<Event>, e: Event, es': seq<Event>)
    requires Sorted(es) && Sorted(es') && 0 < e.id && forall x :: x in es' <==> x in es || x == e
    ensures LastId(es', 0) == Max(LastId(es, 0), e.id)
  {
    forall x | x in es ensures x.id <= LastId(es, 0) { LastIsLargest(es, x, 0); }
    if es != [] && es[|es| - 1].id > e.id {
      assert es[|es| - 1] in es;
      LastIs(es', es[|es| - 1]);
    } else {
      LastIs(es', e);
    }
  }

  /** Adding a committed row to a list of committed rows, shown or not, in order or not. */
  lemma AddMerges(table: seq<Event>, b: Browser, e: Event)
    requires DistinctIds(table) && Sorted(b.events) && e in table && 0 < e.id
    requires Stored(table, b.events)
    requires 0 <= b.lastEventId == LastId(b.events, 0)
    ensures var b' := AddEvent(b, e);
      && Sorted(b'.events)
      && (forall x :: x in b'.events <==> x in b.events || x == e)
      && b'.lastEventId == LastId(b'.events, 0) == Max(b.lastEventId, e.id)
      && b'.version == b.version && b'.source == b.source && b'.session == b.session
  {
    if e in b.events {
      var i :| 0 <= i < |b.events| && b.events[i] == e;
      assert AddEvent(b, e) == b;
    } else {
      AddsNew(table, b, e);
    }
    CursorMerges(b.events, e, AddEvent(b, e).events);
  }

  lemma {:induction false} AddAllMerges(table: seq<Event>, b: Browser, page: seq<Event>)
    requires DistinctIds(table) && Sorted(b.events) && Stored(table, b.events)
    requires 0 <= b.lastEventId == LastId(b.events, 0)
    requires Sorted(page) && AllAbove(page, 0) && Stored(table, page)
    ensures var b' := AddAll(b, page);
      && Sorted(b'.events)
      && (forall x :: x in b'.events <==> x in b.events || x in page)
      && b'.lastEventId == LastId(b'.events, 0) == Max(b.lastEventId, LastId(page, 0))
      && b'.version == b.version && b'.source == b.source && b'.session == b.session
    decreases page
  {
    if page != [] {
      assert page[0] in page && page == [page[0]] + page[1..];
      AddMerges(table, b, page[0]);
      TailAbove(page);
      AddAllMerges(table, AddEvent(b, page[0]), page[1..]);
      if |page| > 1 { assert page[1..][|page| - 2] == page[|page| - 1]; }
    }
  }

  // ---------- growing the table ----------

  lemma TableKeeps(c: Config, s: System, step: Step)
    requires TableInv(s) && Enabled(c, s, step)
    requires step.Insert? || step.Abort? || step.Publish? || step.PublishFails?
    ensures TableInv(Apply(c, s, step))
  {
  }

  lemma CommitTable(c: Config, s: System, row: Event)
    requires TableInv(s) && row in s.inserted
    ensures TableInv(Apply(c, s, Commit(row)))
  {
    var table := s.table + [row];
    assert forall e :: e in table <==> e in s.table || e == row;
    forall i, j | 0 <= i < j < |table| ensures table[i].id != table[j].id {
      assert table[i] in s.table;
    }
  }

  lemma TableGrows(c: Config, table: seq<Event>, row: Event, k: Conn)
    requires ConnInv(c, table, k)
    ensures ConnInv(c, table + [row], k)
  {
    assert forall e :: e in table ==> e in table + [row];
  }

  lemma PagesGrow(table: seq<Event>, row: Event, requests: set<Request>)
    requires RequestsInv(table, requests)
    ensures RequestsInv(table + [row], requests)
  {
    assert forall e :: e in table ==> e in table + [row];
    forall r | r in requests ensures RequestInv(table + [row], r) { assert RequestInv(table, r); }
  }

  lemma AppendKeeps(c: Config, s: System, step: Step)
    requires Inv(c, s) && Enabled(c, s, step)
    requires step.Insert? || step.Abort? || step.Commit? || step.PublishFails?
    ensures Inv(c, Apply(c, s, step))
  {
    if step.Commit? {
      CommitTable(c, s, step.row);
      assert BrowserInv(s.table + [step.row], s.browser);
      PagesGrow(s.table, step.row, s.requests);
      if s.conn.Some? { TableGrows(Of(c, s.browser), s.table, step.row, s.conn.value); }
    } else {
      TableKeeps(c, s, step);
    }
  }

  lemma OfferKeeps(c: Config, table: seq<Event>, k: Conn, row: Event)
    requires ConnInv(c, table, k) && row in table && row.session == c.session
    ensures ConnInv(c, table, Offer(k, row))
  {
    assert forall i :: 0 <= i < |k.received| ==> (k.received + [row])[i] == k.received[i];
  }

  lemma SamePending(k: Conn, k': Conn, wire: seq<Frame>, wire': seq<Frame>, b: Browser)
    requires WireInv(k, wire, b) && EventsOf(wire') == EventsOf(wire)
    requires k'.emitted == k.emitted && k'.afterId == k.afterId
    ensures WireInv(k', wire', b)
  {
    var d := |k.emitted| - |EventsOf(wire)|;
    assert k'.emitted[d..] == k.emitted[d..] && k'.emitted[..d] == k.emitted[..d];
  }

  /** A step that changes the table's bookkeeping and the connection, but nothing it has emitted. */
  lemma QuietConn(c: Config, s: System, s': System)
    requires Inv(c, s) && TableInv(s') && s.conn.Some? && s'.conn.Some?
    requires s'.table == s.table && s'.wire == s.wire && s'.browser == s.browser && s'.requests == s.requests
    requires ConnInv(Of(c, s.browser), s.table, s'.conn.value)
    requires s'.conn.value.emitted == s.conn.value.emitted && s'.conn.value.afterId == s.conn.value.afterId
    ensures Inv(c, s')
  {
    if Current(s.browser) { SamePending(s.conn.value, s'.conn.value, s.wire, s.wire, s.browser); }
  }

  lemma PublishTable(s: System, row: Event, conn: Option<Conn>)
    requires TableInv(s) && row in s.unpublished
    ensures TableInv(s.(unpublished := s.unpublished - {row}, conn := conn))
  {
  }

  lemma PublishKeeps(c: Config, s: System, row: Event)
    requires Inv(c, s) && row in s.unpublished
    ensures Inv(c, Apply(c, s, Publish(row)))
  {
    var conn := s.conn;
    if s.conn.Some? && Offered(s.browser, row) {
      OfferKeeps(Of(c, s.browser), s.table, s.conn.value, row);
      conn := Some(Offer(s.conn.value, row));
    }
    var s' := s.(unpublished := s.unpublished - {row}, conn := conn);
    assert Apply(c, s, Publish(row)) == s';
    PublishTable(s, row, conn);
    if s.conn.Some? { QuietConn(c, s, s'); }
  }

  // ---------- the stream generator ----------

  lemma ReadConn(c: Config, table: seq<Event>, k: Conn)
    requires DistinctIds(table) && ConnInv(c, table, k) && k.phase.Reading?
    ensures ConnInv(c, table, ReadPage(k, c.session, table))
  {
    ListAfterCorrect(table, c.session, k.lastSent, PAGE_SIZE);
  }

  lemma EmitSorted(c: Config, table: seq<Event>, k: Conn, k': Conn, e: Event)
    requires ConnInv(c, table, k)
    requires e in table && e.session == c.session && k.lastSent < e.id
    requires k'.afterId == k.afterId && k'.emitted == k.emitted + [e] && k'.lastSent == e.id
    ensures Sorted(k'.emitted) && Committed(c, table, k'.emitted) && AllAbove(k'.emitted, k'.afterId)
    ensures k'.lastSent == LastId(k'.emitted, k'.afterId)
  {
    AppendSorted(k.emitted, e, k.afterId);
    if k.emitted != [] { assert k.emitted[|k.emitted| - 1] in k.emitted; }
  }

  lemma EmitWire(k: Conn, k': Conn, e: Event, wire: seq<Frame>, b: Browser)
    requires WireInv(k, wire, b)
    requires k'.afterId == k.afterId && k'.emitted == k.emitted + [e]
    ensures WireInv(k', wire + [Ev(e)], b)
  {
    EventsOfAppend(wire, [Ev(e)]);
    assert EventsOf([Ev(e)]) == [e];
    var d := |k.emitted| - |EventsOf(wire)|;
    assert (k.emitted + [e])[d..] == k.emitted[d..] + [e];
    assert (k.emitted + [e])[..d] == k.emitted[..d];
  }

  lemma SilentKeeps(k: Conn, k': Conn, frames: seq<Frame>, wire: seq<Frame>, b: Browser)
    requires WireInv(k, wire, b) && EventsOf(frames) == []
    requires k'.afterId == k.afterId && k'.emitted == k.emitted
    ensures WireInv(k', wire + frames, b)
  {
    EventsOfAppend(wire, frames);
    var pending := EventsOf(wire);
    assert EventsOf(wire + frames) == pending + [] == pending;
    var d := |k.emitted| - |pending|;
    assert k'.emitted[d..] == k.emitted[d..] && k'.emitted[..d] == k.emitted[..d];
  }

  lemma SendConn(c: Config, table: seq<Event>, k: Conn)
    requires ConnInv(c, table, k) && k.phase.Sending?
    ensures ConnInv(c, table, SendRow(k))
  {
    var e := k.phase.rest[0];
    assert e in k.phase.rest;
    EmitSorted(c, table, k, SendRow(k), e);
    TailAbove(k.phase.rest);
    assert forall x :: x in k.phase.rest[1..] ==> x in k.phase.rest;
  }

  lemma PumpConn(c: Config, table: seq<Event>, k: Conn)
    requires ConnInv(c, table, k) && k.pumping && k.phase.Streaming? && k.pumped < |k.received|
    ensures ConnInv(c, table, PumpOne(k, c.queueSize))
  {
  }

  lemma TakeQueue(c: Config, k: Conn)
    requires QueueInv(c, k) && k.phase.Streaming? && k.queue != []
    ensures QueueInv(c, Take(k))
  {
  }

  lemma DeliverConn(c: Config, table: seq<Event>, k: Conn)
    requires ConnInv(c, table, k) && k.phase.Streaming? && k.queue != []
    ensures ConnInv(c, table, Take(k))
  {
    TakeQueue(c, k);
    if Fresh(k) {
      assert k.queue[0] == Live(k.received[k.taken]);
      assert k.received[k.taken] in k.received;
      EmitSorted(c, table, k, Take(k), k.received[k.taken]);
    }
  }

  /** What the generator yields reaches the wire. */
  lemma YieldWire(k: Conn, step: Step, wire: seq<Frame>, b: Browser)
    requires WireInv(k, wire, b)
    requires step.Send? ==> k.phase.Sending? && k.phase.rest != []
    requires step.Deliver? ==> k.phase.Streaming? && k.queue != []
    ensures step.Send? ==> WireInv(SendRow(k), wire + [Ev(k.phase.rest[0])], b)
    ensures step.Deliver? ==> WireInv(Take(k), wire + TakeFrames(k), b)
  {
    if step.Send? {
      EmitWire(k, SendRow(k), k.phase.rest[0], wire, b);
    } else if step.Deliver? {
      if Fresh(k) { EmitWire(k, Take(k), k.queue[0].event, wire, b); } else { SilentKeeps(k, Take(k), TakeFrames(k), wire, b); }
    }
  }

  /** A move of the stream: a new connection state and frames at the end of the wire. */
  lemma MovedKeeps(c: Config, s: System, k: Conn, frames: seq<Frame>)
    requires Inv(c, s) && s.conn.Some? && ConnInv(Of(c, s.browser), s.table, k)
    requires Current(s.browser) ==> WireInv(k, s.wire + frames, s.browser)
    ensures Inv(c, WithConn(s, k, frames))
  {
  }

  lemma StreamKeeps(c: Config, s: System, step: Step)
    requires Inv(c, s) && Enabled(c, s, step)
    requires step.Send? || step.Deliver?
    ensures Inv(c, Apply(c, s, step))
  {
    var k := s.conn.value;
    if Current(s.browser) { YieldWire(k, step, s.wire, s.browser); }
    if step.Send? {
      SendConn(Of(c, s.browser), s.table, k);
      MovedKeeps(c, s, SendRow(k), [Ev(k.phase.rest[0])]);
    } else {
      DeliverConn(Of(c, s.browser), s.table, k);
      MovedKeeps(c, s, Take(k), TakeFrames(k));
    }
  }

  /** A move that emits no event. */
  lemma SilentMove(c: Config, s: System, k: Conn, frames: seq<Frame>)
    requires Inv(c, s) && s.conn.Some? && ConnInv(Of(c, s.browser), s.table, k) && EventsOf(frames) == []
    requires k.afterId == s.conn.value.afterId && k.emitted == s.conn.value.emitted
    ensures Inv(c, WithConn(s, k, frames))
  {
    if Current(s.browser) { SilentKeeps(s.conn.value, k, frames, s.wire, s.browser); }
    MovedKeeps(c, s, k, frames);
  }

  lemma SilentStreamKeeps(c: Config, s: System, step: Step)
    requires Inv(c, s) && Enabled(c, s, step) && (step.Read? || step.Pump? || step.Beat?)
    ensures Inv(c, Apply(c, s, step))
  {
    var k := s.conn.value;
    if step.Read? {
      ReadConn(Of(c, s.browser), s.table, k);
      SilentMove(c, s, Replayed(s.browser, k, s.table), []);
    } else if step.Pump? {
      PumpConn(Of(c, s.browser), s.table, k);
      SilentMove(c, s, PumpOne(k, c.queueSize), []);
    } else {
      assert EventsOf([Heartbeat(step.timestamp)]) == [];
      SilentMove(c, s, k, [Heartbeat(step.timestamp)]);
    }
  }

  // ---------- the browser ----------

  lemma CursorNonNegative(s: System)
    requires TableInv(s) && BrowserInv(s.table, s.browser)
    ensures 0 <= s.browser.lastEventId
    ensures AllAbove(s.browser.events, 0)
  {
    var es := s.browser.events;
    if es != [] { assert es[|es| - 1] in es; }
  }

  lemma OfflineKeeps(c: Config, s: System, b: Browser, requests: set<Request>)
    requires TableInv(s) && BrowserInv(s.table, b) && RequestsInv(s.table, requests)
    ensures Inv(c, Offline(s, b).(requests := requests))
  {
  }

  /** What a handler makes of its page. */
  lemma ResumedKeeps(c: Config, s: System, r: Request)
    requires Inv(c, s) && r in s.requests && r.page.Some? && Effective(s.browser, r)
    ensures BrowserInv(s.table, Resumed(s.browser, r))
  {
    CursorNonNegative(s);
    var b, page := s.browser, r.page.value;
    assert RequestInv(s.table, r);
    if r.purpose.Recovery? {
      AddAllMerges(s.table, b, page);
    } else {
      SortedLargest(page);
      if page != [] { assert page[|page| - 1] in page; }
    }
  }

  lemma ResumeKeeps(c: Config, s: System, r: Request)
    requires Inv(c, s) && Enabled(c, s, Resume(r))
    ensures Inv(c, Apply(c, s, Resume(r)))
  {
    if Effective(s.browser, r) {
      ResumedKeeps(c, s, r);
      OfflineKeeps(c, s, Resumed(s.browser, r), s.requests - {r});
      assert Apply(c, s, Resume(r)) == Offline(s, Resumed(s.browser, r)).(requests := s.requests - {r});
    } else {
      assert Apply(c, s, Resume(r)) == s.(requests := s.requests - {r});
    }
  }

  lemma AnsweredPage(table: seq<Event>, r: Request)
    requires DistinctIds(table) && RequestInv(table, r)
    ensures RequestInv(table, Answered(r, table))
  {
    ListAfterCorrect(table, r.session, r.afterId, PAGE_SIZE);
  }

  lemma AnswerKeeps(c: Config, s: System, r: Request)
    requires Inv(c, s) && Enabled(c, s, Answer(r))
    ensures Inv(c, Apply(c, s, Answer(r)))
  {
    assert RequestInv(s.table, r);
    AnsweredPage(s.table, r);
    assert Apply(c, s, Answer(r)) == s.(requests := s.requests - {r} + {Answered(r, s.table)});
  }

  /** The selection starts, the stream is closed or the connection is lost. */
  lemma OfflineStepKeeps(c: Config, s: System, step: Step)
    requires Inv(c, s) && (step.Select? || step.Close? || step.Drop?) && Enabled(c, s, step)
    ensures Inv(c, Apply(c, s, step))
  {
    if step.Select? {
      var b := Reselected(s.browser);
      var requests := s.requests + {Selecting(step.session, b.version)};
      OfflineKeeps(c, s, b, requests);
      assert Apply(c, s, step) == Offline(s, b).(requests := requests);
    } else {
      var b := if step.Drop? then s.browser else s.browser.(source := Unconnected);
      OfflineKeeps(c, s, b, s.requests);
      assert Apply(c, s, step) == Offline(s, b).(requests := s.requests);
    }
  }

  lemma SubscribedConn(c: Config, table: seq<Event>, afterId: int)
    ensures ConnInv(c, table, Subscribe(afterId))
  {
  }

  lemma EmptyParts(emitted: seq<Event>, pending: seq<Event>)
    requires emitted == [] && pending == []
    ensures |pending| <= |emitted| && pending == emitted[|emitted| - |pending|..]
    ensures emitted[..|emitted| - |pending|] == []
  {
  }

  lemma NothingYet(k: Conn, wire: seq<Frame>, b: Browser)
    requires EventsOf(wire) == [] && k.emitted == [] && b.lastEventId == k.afterId
    ensures WireInv(k, wire, b)
  {
    EmptyParts(k.emitted, EventsOf(wire));
  }

  lemma OnlyRetry(wire: seq<Frame>)
    requires |wire| == 1 && wire[0].Retry?
    ensures EventsOf(wire) == []
  {
    assert EventsOf(wire[1..]) == [];
  }

  /** A new connection for the open source. */
  lemma ConnectKeeps(c: Config, s: System)
    requires Inv(c, s) && Enabled(c, s, Connect)
    ensures Inv(c, Apply(c, s, Connect))
  {
    SubscribedConn(Of(c, s.browser), s.table, Cursor(s.browser.source));
    OnlyRetry([Retry]);
    if Current(s.browser) { NothingYet(Subscribe(Cursor(s.browser.source)), [Retry], s.browser); }
    assert Apply(c, s, Connect) == s.(conn := Some(Subscribe(Cursor(s.browser.source))), wire := [Retry]);
  }

  lemma RequestKeeps(c: Config, s: System, step: Step)
    requires Inv(c, s) && Enabled(c, s, step)
    requires step.Select? || step.Answer? || step.Fail? || step.Resume? || step.Close? || step.Connect? || step.Drop?
    ensures Inv(c, Apply(c, s, step))
  {
    if step.Answer? {
      AnswerKeeps(c, s, step.request);
    } else if step.Resume? {
      ResumeKeeps(c, s, step.request);
    } else if step.Connect? {
      ConnectKeeps(c, s);
    } else if step.Fail? {
      assert Apply(c, s, step) == s.(requests := s.requests - {step.request});
    } else {
      OfflineStepKeeps(c, s, step);
    }
  }

  lemma ReceiveKeeps(c: Config, s: System)
    requires Inv(c, s) && Enabled(c, s, Receive)
    ensures Inv(c, Apply(c, s, Receive))
  {
    CursorNonNegative(s);
    if s.wire[0].Ev? {
      if Current(s.browser) { ReceiveRow(c, s); } else { IgnoreRow(c, s); }
    } else if s.wire[0].Reset? && Current(s.browser) {
      ResetKeeps(c, s);
    } else {
      assert EventsOf(s.wire) == EventsOf(s.wire[1..]);
      PopKeeps(c, s);
    }
  }

  /** A message of a stream opened under another selection changes nothing but the source's own last id. */
  lemma IgnoreRow(c: Config, s: System)
    requires Inv(c, s) && s.wire != [] && s.wire[0].Ev? && !Current(s.browser)
    ensures Inv(c, Received(s))
    ensures Received(s).browser == s.browser.(source := Received(s).browser.source)
  {
    ReceivedInv(c, s, Noticed(s.browser, s.wire[0].event));
    assert Received(s) == s.(wire := s.wire[1..], browser := Noticed(s.browser, s.wire[0].event));
  }

  /** The first frame leaves the wire. */
  lemma ReceivedInv(c: Config, s: System, b: Browser)
    requires Inv(c, s) && s.wire != [] && BrowserInv(s.table, b) && s.conn.Some? && b.source.Open?
    requires b.source.session == s.browser.source.session
    requires Current(b) ==> WireInv(s.conn.value, s.wire[1..], b)
    ensures Inv(c, s.(wire := s.wire[1..], browser := b))
  {
  }

  lemma PopKeeps(c: Config, s: System)
    requires Inv(c, s) && s.wire != [] && EventsOf(s.wire[1..]) == EventsOf(s.wire)
    ensures Inv(c, s.(wire := s.wire[1..]))
  {
    if Current(s.browser) { SamePending(s.conn.value, s.conn.value, s.wire, s.wire[1..], s.browser); }
    ReceivedInv(c, s, s.browser);
    assert s.(wire := s.wire[1..], browser := s.browser) == s.(wire := s.wire[1..]);
  }

  lemma ResetKeeps(c: Config, s: System)
    requires Inv(c, s) && s.wire != [] && s.wire[0].Reset? && Current(s.browser) && 0 <= s.browser.lastEventId
    ensures Inv(c, Received(s))
  {
    var b := s.browser;
    var requests := s.requests + {Recovering(b)};
    OfflineKeeps(c, s, b.(source := Unconnected), requests);
    assert Received(s) == Offline(s, b.(source := Unconnected)).(requests := requests);
  }

  lemma NextPending(emitted: seq<Event>, afterId: int, pending: seq<Event>, e: Event, rest: seq<Event>)
    requires pending == [e] + rest && |pending| <= |emitted| && pending == emitted[|emitted| - |pending|..]
    requires Sorted(emitted) && AllAbove(emitted, afterId)
    ensures var d := |emitted| - |pending|;
      && emitted[d] == e && e in emitted && rest == emitted[d + 1..]
      && LastId(emitted[..d], afterId) < e.id
  {
    var d := |emitted| - |pending|;
    assert emitted[d] == pending[0];
    assert emitted[d + 1..] == pending[1..];
    if d > 0 { assert emitted[..d][d - 1] == emitted[d - 1]; }
  }

  lemma PendingIsNew(c: Config, s: System)
    requires Inv(c, s) && s.wire != [] && s.wire[0].Ev? && Current(s.browser)
    ensures var k, e := s.conn.value, s.wire[0].event;
      var d := |k.emitted| - |EventsOf(s.wire)|;
      && 0 <= d < |k.emitted| && k.emitted[d] == e
      && EventsOf(s.wire[1..]) == k.emitted[d + 1..]
      && s.browser.lastEventId == LastId(k.emitted[..d], k.afterId) < e.id
      && e in s.table && e.session == s.browser.source.session
  {
    var k, e, rest := s.conn.value, s.wire[0].event, EventsOf(s.wire[1..]);
    assert EventsOf(s.wire) == [e] + rest;
    NextPending(k.emitted, k.afterId, EventsOf(s.wire), e, rest);
  }

  lemma ReceiveBrowser(table: seq<Event>, b: Browser, e: Event)
    requires BrowserInv(table, b) && 0 <= b.lastEventId < e.id && e in table && Current(b)
    ensures var b' := Noticed(b, e);
      && BrowserInv(table, b')
      && b' == b.(events := b.events + [e], lastEventId := e.id, source := b.source.(lastId := e.id))
  {
    AddNew(b.(source := b.source.(lastId := e.id)), e);
    AppendSorted(b.events, e, 0);
  }

  lemma ReceiveRow(c: Config, s: System)
    requires Inv(c, s) && s.wire != [] && s.wire[0].Ev? && Current(s.browser)
    ensures Inv(c, Received(s))
    ensures Received(s).browser.events == s.browser.events + [s.wire[0].event]
    ensures Received(s).browser.lastEventId == s.wire[0].event.id
  {
    var k, e, b := s.conn.value, s.wire[0].event, s.browser;
    assert Received(s) == s.(wire := s.wire[1..], browser := Noticed(b, e));
    CursorNonNegative(s);
    PendingIsNew(c, s);
    ReceiveBrowser(s.table, b, e);
    ReceiveWire(k, s.wire, b, Noticed(b, e));
    ReceivedInv(c, s, Noticed(b, e));
  }

  lemma ReceiveWire(k: Conn, wire: seq<Frame>, b: Browser, b': Browser)
    requires WireInv(k, wire, b) && wire != [] && wire[0].Ev?
    requires b'.lastEventId == wire[0].event.id && b'.events == b.events + [wire[0].event]
    ensures WireInv(k, wire[1..], b')
  {
    var e, rest := wire[0].event, EventsOf(wire[1..]);
    assert EventsOf(wire) == [e] + rest;
    var d := |k.emitted| - |EventsOf(wire)|;
    assert k.emitted[d..] == [e] + rest;
    assert k.emitted[d] == e;
    assert k.emitted[d + 1..] == k.emitted[d..][1..] == rest;
    assert k.emitted[..d + 1] == k.emitted[..d] + [e];
  }

  // ---------- every run ----------

  lemma StepKeeps(c: Config, s: System, step: Step)
    requires Inv(c, s) && Enabled(c, s, step)
    ensures Inv(c, Apply(c, s, step))
  {
    match step
    case Insert(_) => AppendKeeps(c, s, step);
    case Abort(_) => AppendKeeps(c, s, step);
    case Commit(_) => AppendKeeps(c, s, step);
    case PublishFails(_) => AppendKeeps(c, s, step);
    case Publish(row) => PublishKeeps(c, s, row);
    case Read => SilentStreamKeeps(c, s, step);
    case Send => StreamKeeps(c, s, step);
    case Pump => SilentStreamKeeps(c, s, step);
    case Deliver => StreamKeeps(c, s, step);
    case Beat(_) => SilentStreamKeeps(c, s, step);
    case Receive => ReceiveKeeps(c, s);
    case _ => RequestKeeps(c, s, step);
  }

  lemma {:induction false} RunKeeps(c: Config, steps: seq<Step>)
    ensures Run(c, steps).At? ==> Inv(c, Run(c, steps).state)
  {
    if steps != [] {
      var n := |steps| - 1;
      RunKeeps(c, steps[..n]);
      if Run(c, steps).At? {
        StepKeeps(c, Run(c, steps[..n]).state, steps[n]);
      }
    }
  }
}
