/** Exact delivery when the appends to the session of interest are serial: the only events a connection can
    miss are those whose publish failed after the replay had passed them. */
module DeliveryExact {
  import opened Events
  import opened Stream
  import opened Delivery
  import opened DeliverySafety
  import opened Wrappers

  /** Committed rows of the session of interest. */
  predicate Row(c: Config, table: seq<Event>, e: Event) {
    e in table && e.session == c.session
  }

  /** Where the replay of a connection stands or stopped. */
  function ReplayEnd(k: Conn): int {
    if k.phase.Reading? || k.phase.Sending? then k.lastSent else k.replayEnd
  }

  /** The events a connection owes its client by now. */
  predicate Due(c: Config, table: seq<Event>, failed: set<Event>, k: Conn, e: Event) {
    Row(c, table, e) && k.afterId < e.id <= k.lastSent && !(e.id > ReplayEnd(k) && e in failed)
  }

  /** At most one append of the session has an id and is not yet published, and it is the newest. */
  ghost predicate OneAtATime(c: Config, table: seq<Event>, pending: set<Event>) {
    && (forall e, f :: e in pending && f in pending && e.session == f.session == c.session ==> e == f)
    && (forall e, f :: e in pending && e.session == c.session && Row(c, table, f) && f != e ==> f.id < e.id)
  }

  /** Every row above `id` is still to be published, failed to be, or sits in the subscription. */
  ghost predicate Covered(c: Config, s: System, k: Conn, id: int) {
    forall e :: Row(c, s.table, e) && e.id > id ==> e in s.unpublished || e in s.failed || e in k.received
  }

  ghost predicate Emitted(c: Config, table: seq<Event>, failed: set<Event>, k: Conn) {
    forall e :: Row(c, table, e) && k.afterId < e.id <= k.lastSent ==>
      (e in k.emitted <==> !(e.id > ReplayEnd(k) && e in failed))
  }

  ghost predicate SubscriptionInv(s: System, k: Conn) {
    && Sorted(k.received)
    && (forall e :: e in k.received ==> e !in s.unpublished && e !in s.failed)
  }

  ghost predicate ReplayInv(c: Config, table: seq<Event>, k: Conn) {
    k.phase.Sending? ==>
      forall e :: Row(c, table, e) && k.lastSent < e.id ==> e in k.phase.rest || e.id > LastId(k.phase.rest, 0)
  }

  ghost predicate CoverInv(c: Config, s: System, k: Conn) {
    match k.phase
    case Sending(rest, final) => final ==> Covered(c, s, k, LastId(rest, 0))
    case Streaming => Covered(c, s, k, k.replayEnd)
    case _ => true
  }

  ghost predicate LiveInv(k: Conn) {
    k.phase.Streaming? || k.phase.Ended? ==>
      && k.taken <= |k.received|
      && k.afterId <= k.replayEnd <= k.lastSent
      && (forall i :: 0 <= i < k.taken ==> k.received[i].id <= k.lastSent)
      && (k.lastSent == k.replayEnd || exists i :: 0 <= i < k.taken && k.received[i].id == k.lastSent)
  }

  ghost predicate ConnExact(c: Config, s: System, k: Conn) {
    && SubscriptionInv(s, k)
    && ReplayInv(c, s.table, k)
    && CoverInv(c, s, k)
    && LiveInv(k)
    && Emitted(c, s.table, s.failed, k)
  }

  /** A page holds every row up to its last one. */
  ghost predicate PageComplete(c: Config, table: seq<Event>, afterId: int, page: seq<Event>) {
    forall e :: Row(c, table, e) && afterId < e.id <= LastId(page, afterId) ==> e in page
  }

  ghost predicate PagesExact(c: Config, table: seq<Event>, requests: set<Request>) {
    forall r :: r in requests && r.page.Some? && r.session == c.session ==>
      PageComplete(c, table, r.afterId, r.page.value)
  }

  /** The connection held is one of the session of interest. */
  predicate Watched(c: Config, s: System) {
    s.conn.Some? && s.browser.source.Open? && s.browser.source.session == c.session
  }

  ghost predicate Exact(c: Config, s: System) {
    && OneAtATime(c, s.table, s.inserted + s.unpublished)
    && PagesExact(c, s.table, s.requests)
    && (Watched(c, s) ==> ConnExact(c, s, s.conn.value))
  }

  lemma WatchedConn(c: Config, s: System)
    requires Inv(c, s) && Watched(c, s)
    ensures ConnInv(c, s.table, s.conn.value)
  {
    assert Of(c, s.browser) == c;
  }

  // ---------- the event table ----------

  lemma LastSentIsRow(c: Config, table: seq<Event>, k: Conn)
    requires ConnInv(c, table, k)
    ensures k.afterId <= k.lastSent
    ensures k.lastSent == k.afterId || exists e :: Row(c, table, e) && e.id == k.lastSent
  {
    if k.emitted != [] {
      var e := k.emitted[|k.emitted| - 1];
      assert e in k.emitted;
      assert Row(c, table, e) && e.id == k.lastSent;
    }
  }

  /** A row committed while appends are serial is above everything already committed for the session. */
  lemma CommitIsNewest(c: Config, s: System, row: Event)
    requires OneAtATime(c, s.table, s.inserted + s.unpublished) && TableInv(s)
    requires row in s.inserted && row.session == c.session
    ensures forall e :: Row(c, s.table, e) ==> e.id < row.id
  {
    assert row in s.inserted + s.unpublished;
  }

  /** Bookkeeping of appends that leaves the table, the connection and the browser alone. */
  lemma PendingExact(c: Config, s: System, nextId: int, inserted: set<Event>)
    requires Exact(c, s) && OneAtATime(c, s.table, inserted + s.unpublished)
    ensures Exact(c, s.(nextId := nextId, inserted := inserted))
  {
    var s' := s.(nextId := nextId, inserted := inserted);
    if Watched(c, s) { SameRows(c, s, s', s.conn.value); }
  }

  lemma OneMorePending(c: Config, table: seq<Event>, pending: set<Event>, row: Event)
    requires OneAtATime(c, table, pending)
    requires row.session == c.session ==> forall f :: f in pending ==> f.session != c.session
    requires forall f :: f in table ==> f.id < row.id
    ensures OneAtATime(c, table, pending + {row})
  {
  }

  lemma FewerPending(c: Config, table: seq<Event>, pending: set<Event>, fewer: set<Event>)
    requires OneAtATime(c, table, pending) && fewer <= pending
    ensures OneAtATime(c, table, fewer)
  {
  }

  lemma InsertExact(c: Config, s: System, step: Step)
    requires Inv(c, s) && Exact(c, s) && Enabled(c, s, step)
    requires step.Insert? || step.Abort?
    requires SerialStep(c, s, step)
    ensures Exact(c, Apply(c, s, step))
  {
    var pending := s.inserted + s.unpublished;
    if step.Insert? {
      var inserted := s.inserted + {step.row};
      assert inserted + s.unpublished == pending + {step.row};
      OneMorePending(c, s.table, pending, step.row);
      PendingExact(c, s, s.nextId + 1, inserted);
      assert Apply(c, s, step) == s.(nextId := s.nextId + 1, inserted := inserted);
    } else {
      var inserted := s.inserted - {step.row};
      FewerPending(c, s.table, pending, inserted + s.unpublished);
      PendingExact(c, s, s.nextId, inserted);
      assert Apply(c, s, step) == s.(nextId := s.nextId, inserted := inserted);
    }
  }

  function Committing(s: System, row: Event): System {
    s.(inserted := s.inserted - {row}, table := s.table + [row], unpublished := s.unpublished + {row})
  }

  lemma CommitConn(c: Config, s: System, k: Conn, row: Event)
    requires ConnInv(c, s.table, k) && ConnExact(c, s, k)
    requires row in s.inserted
    requires forall e, f :: e in s.inserted && f in s.table ==> e.id != f.id
    requires row.session == c.session ==>
      (forall e :: Row(c, s.table, e) ==> e.id < row.id) && (k.lastSent < row.id || k.lastSent == k.afterId)
    ensures ConnExact(c, Committing(s, row), k)
  {
    var s' := Committing(s, row);
    assert forall e :: Row(c, s'.table, e) <==> Row(c, s.table, e) || (e == row && row.session == c.session);
    if k.phase.Sending? {
      assert k.phase.rest[|k.phase.rest| - 1] in k.phase.rest;
    }
  }

  lemma CommitPages(c: Config, table: seq<Event>, requests: set<Request>, row: Event)
    requires RequestsInv(table, requests) && PagesExact(c, table, requests)
    requires row.session == c.session ==> forall e :: Row(c, table, e) ==> e.id < row.id
    ensures PagesExact(c, table + [row], requests)
  {
    forall r, e | r in requests && r.page.Some? && r.session == c.session
                  && Row(c, table + [row], e) && r.afterId < e.id <= LastId(r.page.value, r.afterId)
      ensures e in r.page.value
    {
      var page := r.page.value;
      assert RequestInv(table, r) && PageComplete(c, table, r.afterId, page);
      assert page[|page| - 1] in page && Row(c, table, page[|page| - 1]);
      assert Row(c, table, e);
    }
  }

  lemma CommitSerial(c: Config, table: seq<Event>, pending: set<Event>, row: Event)
    requires OneAtATime(c, table, pending) && row in pending
    ensures OneAtATime(c, table + [row], pending)
  {
    assert forall f :: Row(c, table + [row], f) ==> Row(c, table, f) || (f == row && row.session == c.session);
  }

  lemma CommitExact(c: Config, s: System, row: Event)
    requires Inv(c, s) && Exact(c, s) && row in s.inserted
    ensures Exact(c, Apply(c, s, Commit(row)))
  {
    assert Apply(c, s, Commit(row)) == Committing(s, row);
    if row.session == c.session { CommitIsNewest(c, s, row); }
    if Watched(c, s) {
      WatchedConn(c, s);
      LastSentIsRow(c, s.table, s.conn.value);
    }
    CommitAll(c, s, row, s.inserted + s.unpublished);
  }

  lemma CommitAll(c: Config, s: System, row: Event, pending: set<Event>)
    requires Exact(c, s) && RequestsInv(s.table, s.requests) && row in s.inserted && pending == s.inserted + s.unpublished
    requires forall e, f :: e in s.inserted && f in s.table ==> e.id != f.id
    requires Watched(c, s) ==> ConnInv(c, s.table, s.conn.value)
    requires row.session == c.session ==>
      && (forall e :: Row(c, s.table, e) ==> e.id < row.id)
      && (Watched(c, s) ==> s.conn.value.lastSent < row.id || s.conn.value.lastSent == s.conn.value.afterId)
    ensures Exact(c, Committing(s, row))
  {
    var s' := Committing(s, row);
    if Watched(c, s) { CommitConn(c, s, s.conn.value, row); }
    CommitSerial(c, s.table, pending, row);
    CommitPages(c, s.table, s.requests, row);
    assert s'.inserted + s'.unpublished == pending;
  }

  /** One row leaves the unpublished ones; the connection may have been offered it. */
  lemma PublishedExact(c: Config, s: System, row: Event, conn: Option<Conn>)
    requires Exact(c, s) && row in s.unpublished
    requires Watched(c, s.(conn := conn)) ==> ConnExact(c, s.(unpublished := s.unpublished - {row}), conn.value)
    ensures Exact(c, s.(unpublished := s.unpublished - {row}, conn := conn))
  {
    FewerPending(c, s.table, s.inserted + s.unpublished, s.inserted + (s.unpublished - {row}));
    if Watched(c, s.(conn := conn)) {
      SameRows(c, s.(unpublished := s.unpublished - {row}), s.(unpublished := s.unpublished - {row}, conn := conn), conn.value);
    }
  }

  lemma PublishExact(c: Config, s: System, row: Event)
    requires Inv(c, s) && Exact(c, s) && row in s.unpublished
    ensures Exact(c, Apply(c, s, Publish(row)))
  {
    var done := s.(unpublished := s.unpublished - {row});
    var conn := if s.conn.Some? && Offered(s.browser, row) then Some(Offer(s.conn.value, row)) else s.conn;
    assert Apply(c, s, Publish(row)) == s.(unpublished := s.unpublished - {row}, conn := conn);
    if Watched(c, s) {
      WatchedConn(c, s);
      if row.session == c.session {
        OfferExact(c, s, s.conn.value, row);
      } else {
        OtherPublished(c, s, done, s.conn.value, row);
      }
    }
    PublishedExact(c, s, row, conn);
  }

  lemma OtherPublished(c: Config, s: System, s': System, k: Conn, row: Event)
    requires ConnExact(c, s, k) && row.session != c.session
    requires s'.table == s.table && s'.unpublished == s.unpublished - {row} && s'.failed == s.failed
    ensures ConnExact(c, s', k)
  {
    assert forall id :: Covered(c, s, k, id) ==> Covered(c, s', k, id);
  }

  lemma OfferExact(c: Config, s: System, k: Conn, row: Event)
    requires OneAtATime(c, s.table, s.inserted + s.unpublished)
    requires TableInv(s) && ConnInv(c, s.table, k) && ConnExact(c, s, k)
    requires row in s.unpublished && row.session == c.session
    ensures ConnExact(c, s.(unpublished := s.unpublished - {row}), Offer(k, row))
  {
    var s' := s.(unpublished := s.unpublished - {row});
    if k.phase.Ended? {
      assert SubscriptionInv(s', k);
    } else {
      OfferSubscription(c, s, k, row);
      OfferCovers(c, s, k, row);
      OfferLive(k, row);
    }
  }

  lemma OfferSubscription(c: Config, s: System, k: Conn, row: Event)
    requires OneAtATime(c, s.table, s.inserted + s.unpublished)
    requires TableInv(s) && Committed(c, s.table, k.received) && SubscriptionInv(s, k)
    requires row in s.unpublished && row.session == c.session && !k.phase.Ended?
    ensures SubscriptionInv(s.(unpublished := s.unpublished - {row}), Offer(k, row))
  {
    assert row in s.inserted + s.unpublished;
    forall i | 0 <= i < |k.received| ensures k.received[i].id < row.id {
      assert k.received[i] in k.received;
      assert Row(c, s.table, k.received[i]);
    }
  }

  lemma OfferCovers(c: Config, s: System, k: Conn, row: Event)
    requires CoverInv(c, s, k) && !k.phase.Ended?
    ensures CoverInv(c, s.(unpublished := s.unpublished - {row}), Offer(k, row))
  {
    var s', k' := s.(unpublished := s.unpublished - {row}), Offer(k, row);
    assert forall e :: e in k'.received <==> e in k.received || e == row;
    assert forall id :: Covered(c, s, k, id) ==> Covered(c, s', k', id);
  }

  lemma OfferLive(k: Conn, row: Event)
    requires LiveInv(k) && !k.phase.Ended?
    ensures LiveInv(Offer(k, row))
  {
    assert forall i :: 0 <= i < |k.received| ==> Offer(k, row).received[i] == k.received[i];
  }

  lemma PublishFailsExact(c: Config, s: System, row: Event)
    requires Inv(c, s) && Exact(c, s) && row in s.unpublished
    ensures Exact(c, Apply(c, s, PublishFails(row)))
  {
    var s' := Apply(c, s, PublishFails(row));
    assert s'.inserted + s'.unpublished <= s.inserted + s.unpublished;
    if Watched(c, s) {
      WatchedConn(c, s);
      FailedConn(c, s, s.conn.value, row);
    }
  }

  lemma FailedConn(c: Config, s: System, k: Conn, row: Event)
    requires OneAtATime(c, s.table, s.inserted + s.unpublished)
    requires ConnInv(c, s.table, k) && ConnExact(c, s, k) && row in s.unpublished
    ensures ConnExact(c, Apply(c, s, PublishFails(row)), k)
  {
    if row.session == c.session && ReplayEnd(k) < row.id { FailedIsAhead(c, s, k, row); }
  }

  /** A row whose publish is still to come is above everything the live phase has delivered. */
  lemma FailedIsAhead(c: Config, s: System, k: Conn, row: Event)
    requires OneAtATime(c, s.table, s.inserted + s.unpublished)
    requires ConnInv(c, s.table, k) && ConnExact(c, s, k)
    requires row in s.unpublished && row.session == c.session && ReplayEnd(k) < row.id
    ensures k.lastSent < row.id
  {
    if k.lastSent != ReplayEnd(k) {
      var i :| 0 <= i < k.taken && k.received[i].id == k.lastSent;
      assert k.received[i] in k.received;
      assert row in s.inserted + s.unpublished && Row(c, s.table, k.received[i]);
    }
  }

  // ---------- the stream generator ----------

  lemma ReadExact(c: Config, s: System, k: Conn)
    requires TableInv(s) && ConnInv(c, s.table, k) && ConnExact(c, s, k) && k.phase.Reading?
    ensures ConnExact(c, s, ReadPage(k, c.session, s.table))
  {
    ListAfterCorrect(s.table, c.session, k.lastSent, PAGE_SIZE);
    LastSentIsRow(c, s.table, k);
    var page := ListAfter(s.table, c.session, k.lastSent, PAGE_SIZE);
    if page != [] {
      assert page[|page| - 1] in page;
      forall e | e in page ensures e.id <= LastId(page, 0) { LastIsLargest(page, e, 0); }
    }
  }

  lemma SendEmits(c: Config, table: seq<Event>, failed: set<Event>, k: Conn)
    requires ConnInv(c, table, k) && Emitted(c, table, failed, k) && ReplayInv(c, table, k) && k.phase.Sending?
    ensures forall e :: Row(c, table, e) && k.afterId < e.id <= k.phase.rest[0].id ==> e in SendRow(k).emitted
  {
    var rest := k.phase.rest;
    var row := rest[0];
    assert row in rest;
    TailAbove(rest);
    LastIsLargest(rest, row, 0);
    assert rest == [row] + rest[1..];
  }

  lemma SendRest(c: Config, table: seq<Event>, k: Conn)
    requires ConnInv(c, table, k) && ReplayInv(c, table, k) && k.phase.Sending?
    ensures ReplayInv(c, table, SendRow(k))
    ensures |k.phase.rest| > 1 ==> LastId(k.phase.rest[1..], 0) == LastId(k.phase.rest, 0)
  {
    var rest := k.phase.rest;
    assert rest[0] in rest;
    assert rest == [rest[0]] + rest[1..];
  }

  lemma SendExact(c: Config, s: System, k: Conn)
    requires TableInv(s) && ConnInv(c, s.table, k) && ConnExact(c, s, k) && k.phase.Sending?
    ensures ConnExact(c, s, SendRow(k))
  {
    SendEmits(c, s.table, s.failed, k);
    SendRest(c, s.table, k);
    LastSentIsRow(c, s.table, k);
    assert k.phase.rest[0] in k.phase.rest;
    assert Emitted(c, s.table, s.failed, SendRow(k));
  }

  /** Live delivery of a new event skips exactly the rows whose publish failed. */
  lemma SkippedFailed(c: Config, s: System, k: Conn, row: Event, e: Event)
    requires OneAtATime(c, s.table, s.inserted + s.unpublished)
    requires ConnInv(c, s.table, k) && ConnExact(c, s, k) && k.phase.Streaming?
    requires k.taken < |k.received| && row == k.received[k.taken]
    requires Row(c, s.table, e) && k.lastSent < e.id < row.id
    ensures e in s.failed
  {
    assert row in k.received && Row(c, s.table, row);
    assert e in s.unpublished ==> e in s.inserted + s.unpublished;
  }

  lemma FreshEmits(c: Config, s: System, k: Conn)
    requires OneAtATime(c, s.table, s.inserted + s.unpublished)
    requires TableInv(s) && ConnInv(c, s.table, k) && ConnExact(c, s, k)
    requires k.phase.Streaming? && k.queue != [] && Fresh(k)
    ensures Emitted(c, s.table, s.failed, Take(k))
  {
    assert k.queue[0] == Live(k.received[k.taken]);
    var row, k' := k.received[k.taken], Take(k);
    assert row in k.received && Row(c, s.table, row);
    assert k'.emitted == k.emitted + [row];
    forall e | Row(c, s.table, e) && k.afterId < e.id <= row.id
      ensures e in k'.emitted <==> !(e.id > k.replayEnd && e in s.failed)
    {
      if e.id == row.id {
        SameRow(s.table, e, row);
      } else if e.id > k.lastSent {
        SkippedFailed(c, s, k, row, e);
        if e in k.emitted { LastIsLargest(k.emitted, e, k.afterId); }
      }
    }
  }

  lemma TakeLive(c: Config, k: Conn)
    requires QueueInv(c, k) && LiveInv(k) && k.phase.Streaming? && k.queue != []
    ensures LiveInv(Take(k))
  {
    if k.queue[0].Live? {
      assert k.queue[0] == Live(k.received[k.taken]);
      if Fresh(k) {
        assert Take(k).received[k.taken].id == Take(k).lastSent;
      }
    }
  }

  lemma DeliverExact(c: Config, s: System, k: Conn)
    requires OneAtATime(c, s.table, s.inserted + s.unpublished)
    requires TableInv(s) && ConnInv(c, s.table, k) && ConnExact(c, s, k)
    requires k.phase.Streaming? && k.queue != []
    ensures ConnExact(c, s, Take(k))
  {
    TakeLive(c, k);
    if Fresh(k) { FreshEmits(c, s, k); }
    assert Emitted(c, s.table, s.failed, Take(k));
  }

  lemma SameRows(c: Config, s: System, s': System, k: Conn)
    requires ConnExact(c, s, k)
    requires s'.table == s.table && s'.unpublished == s.unpublished && s'.failed == s.failed
    ensures ConnExact(c, s', k)
  {
  }

  /** A move of the stream, which keeps the table and the requests. */
  lemma QuietExact(c: Config, s: System, k: Conn, frames: seq<Frame>)
    requires Exact(c, s) && s.conn.Some? && (Watched(c, s) ==> ConnExact(c, s, k))
    ensures Exact(c, WithConn(s, k, frames))
  {
    if Watched(c, s) { SameRows(c, s, WithConn(s, k, frames), k); }
  }

  lemma StreamExact(c: Config, s: System, step: Step)
    requires Inv(c, s) && Exact(c, s) && Enabled(c, s, step)
    requires step.Read? || step.Send? || step.Pump? || step.Deliver? || step.Beat?
    ensures Exact(c, Apply(c, s, step))
  {
    var k, watched := s.conn.value, Watched(c, s);
    if watched { WatchedConn(c, s); }
    match step
    case Read =>
      if watched { ReadExact(c, s, k); }
      QuietExact(c, s, Replayed(s.browser, k, s.table), []);
    case Send =>
      if watched { SendExact(c, s, k); }
      QuietExact(c, s, SendRow(k), [Ev(k.phase.rest[0])]);
    case Pump =>
      if watched { PumpExact(c, s, k); }
      QuietExact(c, s, PumpOne(k, c.queueSize), []);
    case Deliver =>
      if watched { DeliverExact(c, s, k); }
      QuietExact(c, s, Take(k), TakeFrames(k));
    case Beat(timestamp) => QuietExact(c, s, k, [Heartbeat(timestamp)]);
    case _ =>
  }

  lemma PumpExact(c: Config, s: System, k: Conn)
    requires ConnExact(c, s, k) && k.pumping && k.pumped < |k.received|
    ensures ConnExact(c, s, PumpOne(k, c.queueSize))
  {
  }

  // ---------- the browser ----------

  lemma PrefixBelow(es: seq<Event>, d: nat, default: int)
    requires Sorted(es) && AllAbove(es, default) && d <= |es|
    ensures default <= LastId(es[..d], default)
  {
    if d > 0 { assert es[d - 1] in es; }
  }

  /** A sorted list has nothing between an element and the ones before it. */
  lemma NothingBetween(es: seq<Event>, d: nat, e: Event, default: int)
    requires Sorted(es) && d < |es| && LastId(es[..d], default) < e.id < es[d].id
    ensures e !in es
  {
    assert d > 0 ==> es[..d][d - 1] == es[d - 1];
  }

  /** A row that a connection skipped has failed to be published. */
  lemma SkippedByStream(c: Config, table: seq<Event>, failed: set<Event>, k: Conn, d: nat, e: Event)
    requires ConnInv(c, table, k) && Emitted(c, table, failed, k)
    requires Row(c, table, e) && d < |k.emitted| && LastId(k.emitted[..d], k.afterId) < e.id < k.emitted[d].id
    ensures e in failed
  {
    NothingBetween(k.emitted, d, e, k.afterId);
    PrefixBelow(k.emitted, d, k.afterId);
    LastIsLargest(k.emitted, k.emitted[d], k.afterId);
  }

  lemma StreamParts(c: Config, s: System)
    requires Inv(c, s) && Exact(c, s) && Watched(c, s)
    ensures ConnInv(c, s.table, s.conn.value) && Emitted(c, s.table, s.failed, s.conn.value)
  {
    WatchedConn(c, s);
  }

  lemma NextIndex(c: Config, s: System) returns (d: nat)
    requires Inv(c, s) && s.wire != [] && s.wire[0].Ev? && Current(s.browser)
    ensures s.conn.Some? && d < |s.conn.value.emitted| && s.conn.value.emitted[d] == s.wire[0].event
    ensures s.browser.lastEventId == LastId(s.conn.value.emitted[..d], s.conn.value.afterId)
  {
    PendingIsNew(c, s);
    d := |s.conn.value.emitted| - |EventsOf(s.wire)|;
  }

  /** Between the cursor and the next event received lie rows whose publish failed, and no others. */
  lemma ReceiptSkipsFailed(c: Config, s: System, e: Event)
    requires Inv(c, s) && Exact(c, s) && s.wire != [] && s.wire[0].Ev? && Current(s.browser)
    requires s.browser.source.session == c.session
    requires Row(c, s.table, e) && s.browser.lastEventId < e.id < s.wire[0].event.id
    ensures e in s.failed
  {
    var d := NextIndex(c, s);
    StreamParts(c, s);
    SkippedByStream(c, s.table, s.failed, s.conn.value, d, e);
  }

  /** The source is for the same session, if it is open. */
  predicate SameSource(b: Browser, b': Browser) {
    b.source.Open? == b'.source.Open? && (b.source.Open? ==> b.source.session == b'.source.session)
  }

  lemma ReceivedFrame(s: System)
    requires s.wire != []
    ensures var s' := Received(s);
      && s'.table == s.table && s'.inserted == s.inserted
      && s'.unpublished == s.unpublished && s'.failed == s.failed
      && (s'.conn == None || (s'.conn == s.conn && SameSource(s.browser, s'.browser)))
      && (!(s.wire[0].Ev? && Current(s.browser)) ==>
            s'.browser.events == s.browser.events && s'.browser.lastEventId == s.browser.lastEventId)
      && (forall r :: r in s'.requests ==> r in s.requests || r.page.None?)
  {
  }

  lemma ReceiveExact(c: Config, s: System)
    requires Exact(c, s) && Enabled(c, s, Receive)
    ensures Exact(c, Apply(c, s, Receive))
  {
    var s' := Received(s);
    ReceivedFrame(s);
    if Watched(c, s') { SameRows(c, s, s', s'.conn.value); }
    assert Apply(c, s, Receive) == s';
  }

  lemma PageShows(c: Config, table: seq<Event>, afterId: int)
    requires DistinctIds(table)
    ensures PageComplete(c, table, afterId, ListAfter(table, c.session, afterId, PAGE_SIZE))
  {
    ListAfterCorrect(table, c.session, afterId, PAGE_SIZE);
    var page := ListAfter(table, c.session, afterId, PAGE_SIZE);
    if page != [] { assert page[|page| - 1] in page; }
  }

  lemma AnsweredPages(c: Config, table: seq<Event>, requests: set<Request>, r: Request)
    requires DistinctIds(table) && PagesExact(c, table, requests)
    ensures PagesExact(c, table, requests - {r} + {Answered(r, table)})
  {
    PageShows(c, table, r.afterId);
  }

  lemma AnswerExact(c: Config, s: System, r: Request)
    requires TableInv(s) && Exact(c, s) && Enabled(c, s, Answer(r))
    ensures Exact(c, Apply(c, s, Answer(r)))
  {
    AnsweredPages(c, s.table, s.requests, r);
    var s' := s.(requests := s.requests - {r} + {Answered(r, s.table)});
    if Watched(c, s) { SameRows(c, s, s', s.conn.value); }
    assert Apply(c, s, Answer(r)) == s';
  }

  lemma RequestExact(c: Config, s: System, step: Step)
    requires Exact(c, s) && Enabled(c, s, step)
    requires step.Select? || step.Fail? || step.Resume? || step.Close? || step.Connect? || step.Drop?
    ensures Exact(c, Apply(c, s, step))
  {
    var s' := Apply(c, s, step);
    assert s'.table == s.table && s'.inserted == s.inserted && s'.unpublished == s.unpublished && s'.failed == s.failed;
    assert forall r :: r in s'.requests ==> r in s.requests || r.page.None?;
    if step.Connect? {
      assert ConnExact(c, s', Subscribe(Cursor(s.browser.source)));
    } else if Watched(c, s') {
      SameRows(c, s, s', s.conn.value);
    }
  }

  // ---------- every serial run ----------

  lemma StepExact(c: Config, s: System, step: Step)
    requires Inv(c, s) && Exact(c, s) && Enabled(c, s, step) && SerialStep(c, s, step)
    ensures Exact(c, Apply(c, s, step))
  {
    match step
    case Insert(_) => InsertExact(c, s, step);
    case Abort(_) => InsertExact(c, s, step);
    case Commit(row) => CommitExact(c, s, row);
    case Publish(row) => PublishExact(c, s, row);
    case PublishFails(row) => PublishFailsExact(c, s, row);
    case Read => StreamExact(c, s, step);
    case Send => StreamExact(c, s, step);
    case Pump => StreamExact(c, s, step);
    case Deliver => StreamExact(c, s, step);
    case Beat(_) => StreamExact(c, s, step);
    case Receive => ReceiveExact(c, s);
    case Answer(r) => AnswerExact(c, s, r);
    case _ => RequestExact(c, s, step);
  }

  lemma {:induction false} RunExact(c: Config, steps: seq<Step>)
    requires Serial(c, steps)
    ensures Run(c, steps).At? ==> Inv(c, Run(c, steps).state) && Exact(c, Run(c, steps).state)
  {
    RunKeeps(c, steps);
    if steps != [] {
      var n := |steps| - 1;
      RunExact(c, steps[..n]);
      if Run(c, steps).At? {
        StepExact(c, Run(c, steps[..n]).state, steps[n]);
      }
    }
  }
}
