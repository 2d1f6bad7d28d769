/** The delivery guarantees: what holds over every run, what serial appends add, and exactly when a gap opens. */
module DeliveryTheorems {
  import opened Events
  import opened Stream
  import opened Delivery
  import opened DeliverySafety
  import opened DeliveryExact
  import opened Wrappers
  import Json

  // ---------- every run ----------

  /** Whatever the interleaving of appends, a stream emits only committed events of its session,
      above its starting cursor, in strictly increasing id order. */
  lemma StreamIsSafe(c: Config, steps: seq<Step>)
    requires Run(c, steps).At? && Run(c, steps).state.conn.Some?
    ensures var s := Run(c, steps).state;
      var k := s.conn.value;
      && s.browser.source.Open?
      && Sorted(k.emitted)
      && k.lastSent == LastId(k.emitted, k.afterId)
      && forall e :: e in k.emitted ==>
           e in s.table && e.session == s.browser.source.session && k.afterId < e.id <= k.lastSent
  {
    RunKeeps(c, steps);
    var k := Run(c, steps).state.conn.value;
    forall e | e in k.emitted ensures e.id <= k.lastSent { LastIsLargest(k.emitted, e, k.afterId); }
  }

  /** Whatever the interleaving, requests of earlier selections that are answered late included, the browser's
      list is sorted, free of duplicates, holds only committed events, its cursor is the last of them, and a stream
      it heeds resumes at the cursor. (When they are all of the session shown, `BrowserGaps.ListIsOwnIff` says.) */
  lemma BrowserIsSafe(c: Config, steps: seq<Step>)
    requires Run(c, steps).At?
    ensures var s := Run(c, steps).state;
      && Sorted(s.browser.events)
      && s.browser.lastEventId == LastId(s.browser.events, 0)
      && Stored(s.table, s.browser.events)
      && (Current(s.browser) ==> Cursor(s.browser.source) == s.browser.lastEventId)
  {
    RunKeeps(c, steps);
  }

  /** Deduplication of a subscription: keep an event only if its id is above everything kept before. */
  function Dedup(es: seq<Event>, last: int): seq<Event> {
    if es == [] then []
    else
      var n := |es| - 1;
      var kept := Dedup(es[..n], last);
      if es[n].id > LastId(kept, last) then kept + [es[n]] else kept
  }

  /** Live delivery is the deduplication of a prefix of the subscription, starting where the replay ended. */
  predicate LivePrefix(k: Conn) {
    k.phase.Streaming? || k.phase.Ended? ==>
      && k.taken <= |k.received|
      && k.replayEnd == LastId(k.replayed, k.afterId)
      && k.emitted == k.replayed + Dedup(k.received[..k.taken], k.replayEnd)
  }

  lemma TakePrefix(c: Config, table: seq<Event>, k: Conn)
    requires ConnInv(c, table, k) && LivePrefix(k) && k.phase.Streaming? && k.queue != []
    ensures LivePrefix(Take(k))
  {
    if k.queue[0].Live? {
      assert k.queue[0] == Live(k.received[k.taken]);
      var before := k.received[..k.taken];
      assert k.received[..k.taken + 1] == before + [k.received[k.taken]];
      assert (before + [k.received[k.taken]])[..k.taken] == before;
      var kept := Dedup(before, k.replayEnd);
      assert LastId(kept, k.replayEnd) == k.lastSent;
      assert k.replayed + (kept + [k.received[k.taken]]) == k.replayed + kept + [k.received[k.taken]];
    }
  }

  lemma OfferPrefix(k: Conn, row: Event)
    requires LivePrefix(k)
    ensures LivePrefix(Offer(k, row))
  {
    if k.taken <= |k.received| {
      assert (k.received + [row])[..k.taken] == k.received[..k.taken];
    }
  }

  /** A step that is not a move of the stream or a publish leaves the connection alone, ends it or
      replaces it by a new one. */
  lemma ConnFrame(c: Config, s: System, step: Step)
    requires Enabled(c, s, step)
    requires !step.Read? && !step.Send? && !step.Pump? && !step.Deliver? && !step.Publish?
    ensures var k' := Apply(c, s, step).conn;
      k' == s.conn || k' == None || (k'.Some? && k'.value == Subscribe(k'.value.afterId) && step.Connect?)
  {
    if step.Receive? { ReceivedFrame(s); }
  }

  lemma StepPrefix(c: Config, s: System, step: Step)
    requires Inv(c, s) && Enabled(c, s, step) && (s.conn.Some? ==> LivePrefix(s.conn.value))
    ensures Apply(c, s, step).conn.Some? ==> LivePrefix(Apply(c, s, step).conn.value)
  {
    match step
    case Deliver => TakePrefix(Of(c, s.browser), s.table, s.conn.value);
    case Publish(row) => if s.conn.Some? { OfferPrefix(s.conn.value, row); }
    case Read => GoLivePrefix(Of(c, s.browser), s.table, s.conn.value);
    case Send => GoLivePrefix(Of(c, s.browser), s.table, s.conn.value);
    case Pump =>
    case _ => ConnFrame(c, s, step);
  }

  function FirstRow(k: Conn): (e: Event)
    requires k.phase.Sending? && k.phase.rest != []
    ensures e in k.phase.rest
  {
    k.phase.rest[0]
  }

  lemma GoLivePrefix(c: Config, table: seq<Event>, k: Conn)
    requires ConnInv(c, table, k) && (k.phase.Reading? || k.phase.Sending?)
    ensures LivePrefix(GoLive(k))
    ensures k.phase.Sending? ==> LivePrefix(SendRow(k))
  {
    assert k.taken == 0 && k.received[..0] == [];
    assert k.emitted + [] == k.emitted;
    if k.phase.Sending? {
      var e := FirstRow(k);
      assert k.emitted + [e] + [] == k.emitted + [e];
    }
  }

  /** For every run: the live queue respects its bound, is a contiguous segment of the subscription or
      just the overflow marker, and the live events delivered are the deduplication of a prefix of the
      subscription; nothing follows an overflow. */
  lemma {:induction false} LiveDeliveryIsPrefix(c: Config, steps: seq<Step>)
    requires Run(c, steps).At? && Run(c, steps).state.conn.Some?
    ensures QueueInv(c, Run(c, steps).state.conn.value)
    ensures LivePrefix(Run(c, steps).state.conn.value)
  {
    RunKeeps(c, steps);
    if steps != [] {
      var n := |steps| - 1;
      RunKeeps(c, steps[..n]);
      if Run(c, steps[..n]).state.conn.Some? { LiveDeliveryIsPrefix(c, steps[..n]); }
      StepPrefix(c, Run(c, steps[..n]).state, steps[n]);
    }
  }

  // ---------- serial appends ----------

  /** With serial appends to a session a connection of it has emitted exactly the committed events of its session above
      its cursor, up to its last id, except those above the replay end whose publish failed. */
  lemma ExactDelivery(c: Config, steps: seq<Step>)
    requires Serial(c, steps) && Run(c, steps).At? && Watched(c, Run(c, steps).state)
    ensures var s := Run(c, steps).state;
      forall e :: e in s.conn.value.emitted <==> Due(c, s.table, s.failed, s.conn.value, e)
  {
    RunExact(c, steps);
    StreamIsSafe(c, steps);
  }

  /** Hence, with serial appends, a connection is free of gaps if and only if no publish failed
      between its replay end and its last id. */
  lemma GapFreeIffPublished(c: Config, steps: seq<Step>)
    requires Serial(c, steps) && Run(c, steps).At? && Watched(c, Run(c, steps).state)
    ensures var s := Run(c, steps).state;
      var k := s.conn.value;
      Missing(c, s.table, k) == {} <==>
        !exists e :: e in s.failed && Row(c, s.table, e) && k.afterId < e.id <= k.lastSent && ReplayEnd(k) < e.id
  {
    ExactDelivery(c, steps);
    var s := Run(c, steps).state;
    var k := s.conn.value;
    if e :| e in s.failed && Row(c, s.table, e) && k.afterId < e.id <= k.lastSent && ReplayEnd(k) < e.id {
      assert e in Missing(c, s.table, k);
    }
    forall e | e in Missing(c, s.table, k)
      ensures e in s.failed && Row(c, s.table, e) && k.afterId < e.id <= k.lastSent && ReplayEnd(k) < e.id
    {
      assert Row(c, s.table, e) && !Due(c, s.table, s.failed, k, e);
    }
  }

  // ---------- exactly when a gap opens, with no hypothesis ----------

  /** Committed events of the session that the connection has passed without emitting them. */
  function Missing(c: Config, table: seq<Event>, k: Conn): set<Event> {
    set e | e in table && e.session == c.session && k.afterId < e.id <= k.lastSent && e !in k.emitted
  }

  function Between(table: seq<Event>, session: SessionId, low: int, high: int): set<Event> {
    set e | e in table && e.session == session && low < e.id < high
  }

  /** The events a step is about to leave behind, read off the state before the step. */
  function Opened(c: Config, s: System, step: Step): set<Event>
    requires Enabled(c, s, step) && s.conn.Some?
  {
    var k := s.conn.value;
    match step
    case Commit(row) => if row.session == c.session && k.afterId < row.id <= k.lastSent then {row} else {}
    case Send => Between(s.table, c.session, k.lastSent, k.phase.rest[0].id)
    case Deliver => if Fresh(k) then Between(s.table, c.session, k.lastSent, k.queue[0].event.id) else {}
    case _ => {}
  }

  lemma EmitOpens(c: Config, table: seq<Event>, k: Conn, k': Conn, row: Event)
    requires DistinctIds(table) && ConnInv(c, table, k)
    requires row in table && k.lastSent < row.id
    requires k'.afterId == k.afterId && k'.lastSent == row.id && k'.emitted == k.emitted + [row]
    ensures Missing(c, table, k') == Missing(c, table, k) + Between(table, c.session, k.lastSent, row.id)
  {
    forall e | e in table && e.id >= row.id ensures e == row || e.id > row.id {
      if e.id == row.id { SameRow(table, e, row); }
    }
    forall e | e in k.emitted ensures e.id <= k.lastSent { LastIsLargest(k.emitted, e, k.afterId); }
    if k.emitted != [] { assert k.emitted[|k.emitted| - 1] in k.emitted; }
  }

  lemma StreamOpens(c: Config, s: System, step: Step)
    requires Inv(c, s) && Watched(c, s) && Enabled(c, s, step) && (step.Send? || step.Deliver?)
    ensures var s' := Apply(c, s, step);
      Missing(c, s.table, s'.conn.value) == Missing(c, s.table, s.conn.value) + Opened(c, s, step)
  {
    var k := s.conn.value;
    WatchedConn(c, s);
    if step.Send? {
      assert k.phase.rest[0] in k.phase.rest;
      EmitOpens(c, s.table, k, SendRow(k), k.phase.rest[0]);
    } else if Fresh(k) {
      assert k.queue[0] == Live(k.received[k.taken]);
      assert k.received[k.taken] in k.received;
      EmitOpens(c, s.table, k, Take(k), k.received[k.taken]);
    }
  }

  lemma CommitOpens(c: Config, s: System, row: Event)
    requires TableInv(s) && s.conn.Some? && ConnInv(c, s.table, s.conn.value) && row in s.inserted
    ensures Missing(c, s.table + [row], s.conn.value)
         == Missing(c, s.table, s.conn.value) + Opened(c, s, Commit(row))
  {
    var k := s.conn.value;
    assert row !in k.emitted;
    assert forall e :: e in s.table + [row] <==> e in s.table || e == row;
  }

  lemma SameGap(c: Config, table: seq<Event>, k: Conn, k': Conn)
    requires k'.afterId == k.afterId && k'.lastSent == k.lastSent && k'.emitted == k.emitted
    ensures Missing(c, table, k') == Missing(c, table, k)
  {
  }

  lemma OtherOpens(c: Config, s: System, step: Step)
    requires Enabled(c, s, step) && s.conn.Some? && Apply(c, s, step).conn.Some?
    requires !step.Send? && !step.Deliver? && !step.Commit?
    ensures var s' := Apply(c, s, step);
      && s'.table == s.table
      && s'.conn.value.afterId == s.conn.value.afterId
      && s'.conn.value.lastSent == s.conn.value.lastSent
      && s'.conn.value.emitted == s.conn.value.emitted
  {
    if step.Receive? { ReceivedFrame(s); }
    if !step.Read? && !step.Pump? && !step.Publish? { ConnFrame(c, s, step); }
  }

  /** The set of missed events grows, at every step of a held connection, by exactly `Opened`. */
  lemma GapGrowth(c: Config, s: System, step: Step)
    requires Inv(c, s) && Watched(c, s) && Enabled(c, s, step) && Apply(c, s, step).conn.Some?
    ensures var s' := Apply(c, s, step);
      Missing(c, s'.table, s'.conn.value) == Missing(c, s.table, s.conn.value) + Opened(c, s, step)
  {
    if step.Send? || step.Deliver? {
      StreamOpens(c, s, step);
    } else if step.Commit? {
      WatchedConn(c, s);
      CommitOpens(c, s, step.row);
    } else {
      OtherOpens(c, s, step);
      SameGap(c, s.table, s.conn.value, Apply(c, s, step).conn.value);
    }
  }

  lemma StillWatched(c: Config, s: System, step: Step)
    requires Watched(c, s) && Enabled(c, s, step) && Apply(c, s, step).conn.Some?
    ensures Watched(c, Apply(c, s, step))
  {
    if step.Receive? { ReceivedFrame(s); }
  }

  /** Every step is enabled and the connection is held throughout. */
  predicate Held(c: Config, s: System, steps: seq<Step>)
    decreases steps
  {
    s.conn.Some? &&
    (steps == [] || (Enabled(c, s, steps[0]) && Held(c, Apply(c, s, steps[0]), steps[1..])))
  }

  function End(c: Config, s: System, steps: seq<Step>): System
    requires Held(c, s, steps)
    decreases steps
  {
    if steps == [] then s else End(c, Apply(c, s, steps[0]), steps[1..])
  }

  predicate OpensNothing(c: Config, s: System, steps: seq<Step>)
    requires Held(c, s, steps)
    decreases steps
  {
    steps == [] ||
    (Opened(c, s, steps[0]) == {} && OpensNothing(c, Apply(c, s, steps[0]), steps[1..]))
  }

  /** A held connection has no gap at the end if and only if it had none and no step opened one. */
  lemma {:induction false} GapFreeIffNothingOpened(c: Config, s: System, steps: seq<Step>)
    requires Inv(c, s) && Watched(c, s) && Held(c, s, steps)
    ensures Inv(c, End(c, s, steps)) && Watched(c, End(c, s, steps))
    ensures Missing(c, End(c, s, steps).table, End(c, s, steps).conn.value) == {} <==>
            Missing(c, s.table, s.conn.value) == {} && OpensNothing(c, s, steps)
    decreases steps
  {
    if steps != [] {
      StepKeeps(c, s, steps[0]);
      GapGrowth(c, s, steps[0]);
      StillWatched(c, s, steps[0]);
      GapFreeIffNothingOpened(c, Apply(c, s, steps[0]), steps[1..]);
    }
  }

  // ---------- the two ways the guarantee fails ----------

  lemma Extend(c: Config, steps: seq<Step>, step: Step)
    requires Run(c, steps).At? && Enabled(c, Run(c, steps).state, step)
    ensures Run(c, steps + [step]) == At(Apply(c, Run(c, steps).state, step))
  {
    assert (steps + [step])[..|steps|] == steps;
  }

  const FIRST: Event := Event(1, "s", Json.JNull, RunCompleted, Json.JNull, "t")
  const SECOND: Event := Event(2, "s", Json.JNull, RunStarted, Json.JNull, "t")
  const DEMO: Config := Config("s", 100)

  const LIVE: Conn := GoLive(Subscribe(0))
  const WAITING: Browser := Browser("s", [], 0, 1, Open("s", 1, 0, 0))
  const SHOWN: Browser := Browser("s", [SECOND], 2, 1, Open("s", 1, 0, 2))

  /** Run(steps) is `s` and `step` leads from it to `s'`. */
  lemma Then(c: Config, steps: seq<Step>, s: System, step: Step, s': System) returns (more: seq<Step>)
    requires Run(c, steps) == At(s) && Enabled(c, s, step) && Apply(c, s, step) == s'
    ensures more == steps + [step] && Run(c, more) == At(s')
    ensures Serial(c, steps) && SerialStep(c, s, step) ==> Serial(c, more)
  {
    Extend(c, steps, step);
    more := steps + [step];
    assert more[..|steps|] == steps;
  }

  /** One request among others is answered. */
  lemma Reply(c: Config, steps: seq<Step>, s: System, rest: set<Request>, r: Request, page: seq<Event>)
    returns (more: seq<Step>)
    requires Serial(c, steps) && Run(c, steps) == At(s)
    requires s.requests == rest + {r} && r !in rest && r.page.None?
    requires page == ListAfter(s.table, r.session, r.afterId, PAGE_SIZE)
    ensures Serial(c, more)
    ensures Run(c, more) == At(s.(requests := rest + {r.(page := Some(page))}))
  {
    assert s.requests - {r} == rest;
    more := Then(c, steps, s, Answer(r), s.(requests := rest + {r.(page := Some(page))}));
  }

  /** A selection that has taken effect. */
  function Chosen(b: Browser, session: SessionId, page: seq<Event>): Browser {
    Connected(Showing(Reselected(b), session, page), session, b.version + 1)
  }

  /** A selection is made and answered. */
  lemma Ask(c: Config, steps: seq<Step>, s: System, session: SessionId, page: seq<Event>) returns (more: seq<Step>)
    requires Serial(c, steps) && Run(c, steps) == At(s)
    requires session != "" && page == ListAfter(s.table, session, 0, PAGE_SIZE)
    requires forall r :: r in s.requests ==> r.version <= s.browser.version
    ensures Serial(c, more)
    ensures Run(c, more) == At(Offline(s, Reselected(s.browser)).(
      requests := s.requests + {Selecting(session, s.browser.version + 1).(page := Some(page))}))
  {
    var r := Selecting(session, s.browser.version + 1);
    var a := Offline(s, Reselected(s.browser)).(requests := s.requests + {r});
    more := Then(c, steps, s, Select(session), a);
    more := Reply(c, more, a, s.requests, r, page);
  }

  /** A selection is made, answered and takes effect. */
  lemma Choose(c: Config, steps: seq<Step>, s: System, session: SessionId, page: seq<Event>) returns (more: seq<Step>)
    requires Serial(c, steps) && Run(c, steps) == At(s)
    requires session != "" && page == ListAfter(s.table, session, 0, PAGE_SIZE)
    requires forall r :: r in s.requests ==> r.version <= s.browser.version
    ensures Serial(c, more) && Run(c, more) == At(Offline(s, Chosen(s.browser, session, page)))
  {
    more := Ask(c, steps, s, session, page);
    var answer := Selecting(session, s.browser.version + 1).(page := Some(page));
    var a := Offline(s, Reselected(s.browser)).(requests := s.requests + {answer});
    assert a.requests - {answer} == s.requests;
    assert Resumed(a.browser, answer) == Chosen(s.browser, session, page);
    more := Then(c, more, a, Resume(answer), Offline(s, Chosen(s.browser, session, page)));
  }

  lemma EmptyPage(session: SessionId)
    ensures ListAfter([], session, 0, PAGE_SIZE) == []
  {
    assert Matching([], session, 0) == [];
  }

  /** The session is selected while the table is empty, and the stream goes live. */
  lemma Idle() returns (steps: seq<Step>)
    ensures Serial(DEMO, steps)
    ensures Run(DEMO, steps) == At(INITIAL.(conn := Some(LIVE), wire := [Retry], browser := WAITING))
  {
    EmptyPage("s");
    steps := Choose(DEMO, [], INITIAL, "s", []);
    assert Offline(INITIAL, Chosen(INITIAL.browser, "s", [])) == INITIAL.(browser := WAITING);
    var open := INITIAL.(conn := Some(Subscribe(0)), wire := [Retry], browser := WAITING);
    steps := Then(DEMO, steps, INITIAL.(browser := WAITING), Connect, open);
    steps := Then(DEMO, steps, open, Read, open.(conn := Some(LIVE)));
  }

  const OFFERED: Conn := LIVE.(received := [SECOND])
  const DELIVERED: Conn := OFFERED.(pumped := 1, taken := 1, lastSent := 2, emitted := [SECOND])

  /** SECOND, already published into the subscription, is pumped, delivered and received. */
  lemma Show(steps: seq<Step>, s: System) returns (more: seq<Step>)
    requires Run(DEMO, steps) == At(s)
    requires s.conn == Some(OFFERED) && s.wire == [Retry] && s.browser == WAITING
    ensures Serial(DEMO, steps) ==> Serial(DEMO, more)
    ensures Run(DEMO, more) == At(s.(conn := Some(DELIVERED), wire := [], browser := SHOWN))
  {
    var queued := OFFERED.(pumped := 1, queue := [Live(SECOND)]);
    assert s.wire + [] == s.wire && [] + [Live(SECOND)] == [Live(SECOND)];
    more := Then(DEMO, steps, s, Pump, s.(conn := Some(queued)));
    assert [Retry] + [Ev(SECOND)] == [Retry, Ev(SECOND)] && [] + [SECOND] == [SECOND];
    var sent := s.(conn := Some(DELIVERED), wire := [Retry, Ev(SECOND)]);
    assert queued.queue[1..] == [] && Fresh(queued);
    assert Take(queued) == DELIVERED;
    more := Then(DEMO, more, s.(conn := Some(queued)), Deliver, sent);
    more := ShowReceived(more, sent);
  }

  lemma ShowReceived(steps: seq<Step>, s: System) returns (more: seq<Step>)
    requires Run(DEMO, steps) == At(s)
    requires s.wire == [Retry, Ev(SECOND)] && s.browser == WAITING
    ensures Serial(DEMO, steps) ==> Serial(DEMO, more)
    ensures Run(DEMO, more) == At(s.(wire := [], browser := SHOWN))
  {
    more := Then(DEMO, steps, s, Receive, s.(wire := [Ev(SECOND)]));
    AddNew(Browser("s", [], 0, 1, Open("s", 1, 0, 2)), SECOND);
    more := Then(DEMO, more, s.(wire := [Ev(SECOND)]), Receive, s.(wire := [], browser := SHOWN));
  }

  /** Two overlapping appends to one session, no failed publish: the later id is committed, published
      and delivered first, so the earlier one is dropped as a duplicate and the cursor has passed it. */
  lemma OverlapLosesAnEvent() returns (steps: seq<Step>)
    ensures Run(DEMO, steps).At?
    ensures var s := Run(DEMO, steps).state;
      && s.failed == {} && s.unpublished == {} && s.inserted == {}
      && Row(DEMO, s.table, FIRST) && FIRST.id <= s.browser.lastEventId && FIRST !in s.browser.events
      && s.conn.Some? && s.conn.value.queue == [] && FIRST in s.conn.value.received && FIRST !in s.conn.value.emitted
  {
    steps := Idle();
    var s := INITIAL.(conn := Some(LIVE), wire := [Retry], browser := WAITING);
    steps := Then(DEMO, steps, s, Insert(FIRST), s.(nextId := 2, inserted := {FIRST}));
    var both := s.(nextId := 3, inserted := {FIRST, SECOND});
    steps := Then(DEMO, steps, s.(nextId := 2, inserted := {FIRST}), Insert(SECOND), both);
    var late := both.(inserted := {FIRST}, table := [SECOND], unpublished := {SECOND});
    steps := Then(DEMO, steps, both, Commit(SECOND), late);
    var sent := late.(unpublished := {}, conn := Some(OFFERED));
    steps := Then(DEMO, steps, late, Publish(SECOND), sent);
    steps := Show(steps, sent);
    steps := LateCommit(steps, Run(DEMO, steps).state);
  }

  lemma LateCommit(steps: seq<Step>, s: System) returns (more: seq<Step>)
    requires Run(DEMO, steps) == At(s) && s.inserted == {FIRST} && s.table == [SECOND]
    requires s.unpublished == s.failed == {} && s.browser == SHOWN
    requires s.conn == Some(DELIVERED)
    ensures Run(DEMO, more).At?
    ensures var s' := Run(DEMO, more).state;
      && s'.inserted == s'.unpublished == s'.failed == {}
      && s'.table == [SECOND, FIRST] && s'.browser == SHOWN
      && s'.conn.Some? && s'.conn.value.queue == [] && s'.conn.value.emitted == [SECOND] && s'.conn.value.received == [SECOND, FIRST]
  {
    var stored := s.(inserted := {}, table := [SECOND, FIRST], unpublished := {FIRST});
    assert [SECOND] + [FIRST] == [SECOND, FIRST];
    more := Then(DEMO, steps, s, Commit(FIRST), stored);
    var offered := s.conn.value.(received := [SECOND, FIRST]);
    var sent := stored.(unpublished := {}, conn := Some(offered));
    more := Then(DEMO, more, stored, Publish(FIRST), sent);
    more := SkipFirst(more, sent);
  }

  lemma SkipFirst(steps: seq<Step>, s: System) returns (more: seq<Step>)
    requires Run(DEMO, steps) == At(s)
    requires s.conn.Some? && s.conn.value.phase.Streaming? && s.conn.value.pumping && s.conn.value.pumped == 1
    requires s.conn.value.received == [SECOND, FIRST] && s.conn.value.queue == [] && s.conn.value.lastSent == 2
    ensures Run(DEMO, more).At?
    ensures var s' := Run(DEMO, more).state;
      s'.conn.Some? && s' == s.(conn := s'.conn)
      && s'.conn.value == s.conn.value.(pumped := 2, taken := s.conn.value.taken + 1)
  {
    var queued := s.conn.value.(pumped := 2, queue := [Live(FIRST)]);
    assert s.wire + [] == s.wire && [] + [Live(FIRST)] == [Live(FIRST)];
    assert PumpOne(s.conn.value, DEMO.queueSize) == queued;
    more := Then(DEMO, steps, s, Pump, s.(conn := Some(queued)));
    assert queued.queue[1..] == [] && !Fresh(queued) && s.wire + TakeFrames(queued) == s.wire;
    var skipped := queued.(queue := [], taken := queued.taken + 1);
    assert Take(queued) == skipped;
    more := Then(DEMO, more, s.(conn := Some(queued)), Deliver, s.(conn := Some(skipped)));
  }

  /** Serial appends, one failed publish: the next event moves the cursor past it, and by
      `BrowserGaps.PassedStaysMissing` no reconnect brings it back. */
  lemma FailedPublishIsPassed() returns (steps: seq<Step>)
    ensures Serial(DEMO, steps) && Run(DEMO, steps).At?
    ensures var s := Run(DEMO, steps).state;
      s.failed == {FIRST} && Row(DEMO, s.table, FIRST) && FIRST.id <= s.browser.lastEventId && FIRST !in s.browser.events
  {
    steps := Idle();
    var s := INITIAL.(conn := Some(LIVE), wire := [Retry], browser := WAITING);
    var a := s.(nextId := 2, inserted := {FIRST});
    steps := Then(DEMO, steps, s, Insert(FIRST), a);
    var b := a.(inserted := {}, table := [FIRST], unpublished := {FIRST});
    steps := Then(DEMO, steps, a, Commit(FIRST), b);
    var d := b.(unpublished := {}, failed := {FIRST});
    steps := Then(DEMO, steps, b, PublishFails(FIRST), d);
    steps := AppendSecond(steps, d);
  }

  lemma AppendSecond(steps: seq<Step>, d: System) returns (more: seq<Step>)
    requires Serial(DEMO, steps) && Run(DEMO, steps) == At(d)
    requires d.nextId == 2 && d.table == [FIRST] && d.failed == {FIRST} && d.inserted == d.unpublished == {}
    requires d.conn == Some(LIVE) && d.wire == [Retry] && d.browser == WAITING
    ensures Serial(DEMO, more) && Run(DEMO, more).At?
    ensures var s := Run(DEMO, more).state; s.failed == {FIRST} && s.table == [FIRST, SECOND] && s.browser == SHOWN
  {
    var e := d.(nextId := 3, inserted := {SECOND});
    more := Then(DEMO, steps, d, Insert(SECOND), e);
    assert [FIRST] + [SECOND] == [FIRST, SECOND] && [] + [SECOND] == [SECOND];
    var f := e.(inserted := {}, table := [FIRST, SECOND], unpublished := {SECOND});
    more := Then(DEMO, more, e, Commit(SECOND), f);
    var g := f.(unpublished := {}, conn := Some(OFFERED));
    assert Offer(LIVE, SECOND) == OFFERED;
    more := Then(DEMO, more, f, Publish(SECOND), g);
    more := Show(more, g);
  }
}
