/** The event delivery protocol as a step system: concurrent appends to the event table, the broker,
    one browser showing a session at a time with its history requests in flight, and the stream connection
    it currently holds. */
module Delivery {
  import opened Events
  import opened Stream
  import opened Wrappers

  /** The server's queue size, and a session of interest: steps do not depend on the latter. */
  datatype Config = Config(session: SessionId, queueSize: int)

  /** The browser's EventSource for a session, opened under a selection version. `lastId` is its own Last-Event-ID
      (0 when none was seen). */
  datatype Source =
    | Unconnected
    | Open(session: SessionId, version: int, urlAfter: int, lastId: int)

  /** `session` is the session shown, empty at first; `version` counts the selections made. */
  datatype Browser = Browser(session: SessionId, events: seq<Event>, lastEventId: int, version: int, source: Source)

  datatype Purpose = Selection | Recovery

  /** A request for a history page of a session after `afterId`, made by a selection or by the handler of a reset;
      `page` is its answer. */
  datatype Request = Request(
    purpose: Purpose,
    session: SessionId,
    version: int,
    afterId: int,
    page: Option<seq<Event>>)

  /** `inserted` rows have an id but are not committed; `unpublished` rows are committed and their
      publish has not been attempted; `failed` rows are committed and their publish raised. */
  datatype System = System(
    nextId: int,
    inserted: set<Event>,
    table: seq<Event>,
    unpublished: set<Event>,
    failed: set<Event>,
    conn: Option<Conn>,
    wire: seq<Frame>,
    browser: Browser,
    requests: set<Request>)

  const INITIAL: System := System(1, {}, [], {}, {}, None, [], Browser("", [], 0, 0, Unconnected), {})

  datatype Step =
    | Insert(row: Event)
    | Abort(row: Event)
    | Commit(row: Event)
    | Publish(row: Event)
    | PublishFails(row: Event)
    | Read
    | Send
    | Pump
    | Deliver
    | Beat(timestamp: string)
    | Select(session: SessionId)
    | Answer(request: Request)
    | Fail(request: Request)
    | Resume(request: Request)
    | Close
    | Connect
    | Drop
    | Receive

  function Max(a: int, b: int): int {
    if a > b then a else b
  }

  // ---------- the browser ----------

  predicate Shown(events: seq<Event>, id: int) {
    exists i :: 0 <= i < |events| && events[i].id == id
  }

  /** `addEvent`: ignore a known id, otherwise push and sort. */
  function AddEvent(b: Browser, e: Event): Browser {
    if e.id != 0 && Shown(b.events, e.id) then b
    else b.(events := SortById(b.events + [e]),
            lastEventId := if e.id != 0 then Max(b.lastEventId, e.id) else b.lastEventId)
  }

  function AddAll(b: Browser, es: seq<Event>): Browser
    decreases es
  {
    if es == [] then b else AddAll(AddEvent(b, es[0]), es[1..])
  }

  function LargestId(es: seq<Event>): int {
    if es == [] then 0 else Max(LargestId(es[..|es| - 1]), es[|es| - 1].id)
  }

  /** The cursor the endpoint computes from the Last-Event-ID header and the after_id parameter. */
  function Cursor(source: Source): int
    requires source.Open?
  {
    Max(Max(0, source.lastId), Max(0, source.urlAfter))
  }

  /** The stream whose messages the browser heeds: opened under the current selection. */
  predicate Current(b: Browser) {
    b.source.Open? && b.source.version == b.version
  }

  /** The start of a selection: a new version, and the stream is closed. */
  function Reselected(b: Browser): Browser {
    b.(version := b.version + 1, source := Unconnected)
  }

  /** `connectEventStream`: any open stream is replaced by one from the cursor. */
  function Connected(b: Browser, session: SessionId, version: int): Browser {
    b.(source := Open(session, version, b.lastEventId, 0))
  }

  /** The page of a selection takes effect only under its own version; that of a recovery always does. */
  predicate Effective(b: Browser, r: Request) {
    r.purpose.Recovery? || r.version == b.version
  }

  /** A selection takes effect: its page is the list. */
  function Showing(b: Browser, session: SessionId, page: seq<Event>): Browser {
    b.(session := session, events := page, lastEventId := LargestId(page))
  }

  /** The handler of a request goes on with its page. */
  function Resumed(b: Browser, r: Request): Browser
    requires r.page.Some?
  {
    if !Effective(b, r) then b
    else Connected(if r.purpose.Selection? then Showing(b, r.session, r.page.value) else AddAll(b, r.page.value),
                   r.session, r.version)
  }

  /** A message moves the Last-Event-ID of the source; its handler adds the event under the current version only. */
  function Noticed(b: Browser, e: Event): Browser {
    var seen := if b.source.Open? then b.(source := b.source.(lastId := e.id)) else b;
    if Current(b) then AddEvent(seen, e) else seen
  }

  // ---------- steps ----------

  predicate Enabled(c: Config, s: System, step: Step) {
    match step
    case Insert(row) => row.id == s.nextId
    case Abort(row) => row in s.inserted
    case Commit(row) => row in s.inserted
    case Publish(row) => row in s.unpublished
    case PublishFails(row) => row in s.unpublished
    case Read => s.conn.Some? && s.conn.value.phase.Reading?
    case Send => s.conn.Some? && s.conn.value.phase.Sending? && s.conn.value.phase.rest != []
    case Pump => s.conn.Some? && s.conn.value.pumping && s.conn.value.phase.Streaming?
                 && s.conn.value.pumped < |s.conn.value.received|
    case Deliver => s.conn.Some? && s.conn.value.phase.Streaming? && s.conn.value.queue != []
    case Beat(_) => s.conn.Some? && s.conn.value.phase.Streaming? && s.conn.value.queue == []
    case Select(session) => session != ""
    case Answer(r) => r in s.requests && r.page.None?
    case Fail(r) => r in s.requests
    case Resume(r) => r in s.requests && r.page.Some?
    case Close => true
    case Connect => s.conn.None? && s.browser.source.Open?
    case Drop => s.conn.Some?
    case Receive => s.wire != []
  }

  /** The broker offers a row to the subscriptions of its session. */
  predicate Offered(b: Browser, row: Event) {
    b.source.Open? && b.source.session == row.session
  }

  /** The rows read for the stream's session. */
  function Replayed(b: Browser, k: Conn, table: seq<Event>): Conn {
    if b.source.Open? then ReadPage(k, b.source.session, table) else k
  }

  function WithConn(s: System, k: Conn, frames: seq<Frame>): System {
    s.(conn := Some(k), wire := s.wire + frames)
  }

  function Selecting(session: SessionId, version: int): Request {
    Request(Selection, session, version, 0, None)
  }

  /** What the handler of a reset asks for: the rows of the session shown after the cursor. */
  function Recovering(b: Browser): Request {
    Request(Recovery, b.session, b.version, b.lastEventId, None)
  }

  function Answered(r: Request, table: seq<Event>): Request {
    r.(page := Some(ListAfter(table, r.session, r.afterId, PAGE_SIZE)))
  }

  /** No connection, and nothing on the wire. */
  function Offline(s: System, b: Browser): System {
    s.(conn := None, wire := [], browser := b)
  }

  /** The next frame arrives. A reset under the current version closes the stream and asks for the rows after the
      cursor; under another one it is ignored. */
  function Received(s: System): System
    requires s.wire != []
  {
    var b, rest := s.browser, s.(wire := s.wire[1..]);
    match s.wire[0]
    case Retry => rest
    case Heartbeat(_) => rest
    case Reset =>
      if Current(b)
      then Offline(s, b.(source := Unconnected)).(requests := s.requests + {Recovering(b)})
      else rest
    case Ev(e) => rest.(browser := Noticed(b, e))
  }

  function Apply(c: Config, s: System, step: Step): System
    requires Enabled(c, s, step)
  {
    match step
    case Insert(row) => s.(nextId := s.nextId + 1, inserted := s.inserted + {row})
    case Abort(row) => s.(inserted := s.inserted - {row})
    case Commit(row) =>
      s.(inserted := s.inserted - {row}, table := s.table + [row], unpublished := s.unpublished + {row})
    case Publish(row) =>
      var done := s.(unpublished := s.unpublished - {row});
      if s.conn.Some? && Offered(s.browser, row) then done.(conn := Some(Offer(s.conn.value, row))) else done
    case PublishFails(row) => s.(unpublished := s.unpublished - {row}, failed := s.failed + {row})
    case Read => WithConn(s, Replayed(s.browser, s.conn.value, s.table), [])
    case Send => WithConn(s, SendRow(s.conn.value), [Ev(s.conn.value.phase.rest[0])])
    case Pump => WithConn(s, PumpOne(s.conn.value, c.queueSize), [])
    case Deliver => WithConn(s, Take(s.conn.value), TakeFrames(s.conn.value))
    case Beat(timestamp) => WithConn(s, s.conn.value, [Heartbeat(timestamp)])
    case Select(session) =>
      var b := Reselected(s.browser);
      Offline(s, b).(requests := s.requests + {Selecting(session, b.version)})
    case Answer(r) =>
      s.(requests := s.requests - {r} + {Answered(r, s.table)})
    case Fail(r) => s.(requests := s.requests - {r})
    case Resume(r) =>
      var done := s.(requests := s.requests - {r});
      if Effective(s.browser, r) then Offline(done, Resumed(s.browser, r)) else done
    case Close => Offline(s, s.browser.(source := Unconnected))
    case Connect => s.(conn := Some(Subscribe(Cursor(s.browser.source))), wire := [Retry])
    case Drop => Offline(s, s.browser)
    case Receive => Received(s)
  }

  datatype Outcome = Stuck | At(state: System)

  /** The state a sequence of steps leads to from the initial state, if every step was enabled. */
  function Run(c: Config, steps: seq<Step>): Outcome {
    if steps == [] then At(INITIAL)
    else
      var n := |steps| - 1;
      match Run(c, steps[..n])
      case Stuck => Stuck
      case At(s) => if Enabled(c, s, steps[n]) then At(Apply(c, s, steps[n])) else Stuck
  }

  /** Appends to the session of interest are serial: an id is assigned only when no append to that session
      is between its id assignment and its publish. */
  ghost predicate SerialStep(c: Config, s: System, step: Step) {
    step.Insert? && step.row.session == c.session ==>
      forall f :: f in s.inserted + s.unpublished ==> f.session != c.session
  }

  ghost predicate Serial(c: Config, steps: seq<Step>) {
    steps == [] ||
    (var n := |steps| - 1;
     Serial(c, steps[..n]) &&
     (Run(c, steps[..n]).At? ==> SerialStep(c, Run(c, steps[..n]).state, steps[n])))
  }
}
