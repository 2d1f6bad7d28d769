/** A history page that arrives after the selection it was asked for: serial appends, no failed publish, and
    yet an event that the browser passes. */
module StaleRecovery {
  import opened Events
  import opened Stream
  import opened Delivery
  import opened DeliverySafety
  import opened DeliveryExact
  import opened DeliveryTheorems
  import opened BrowserGaps
  import opened Wrappers
  import Json

  const TIGHT: Config := Config("s", 1)

  function Item(id: int): Event {
    Event(id, "s", Json.JNull, RunStarted, Json.JNull, "t")
  }

  /** The events with ids 1 to n. */
  function Items(n: nat): (r: seq<Event>)
    ensures |r| == n && forall i :: 0 <= i < n ==> r[i] == Item(i + 1)
  {
    seq(n, i => Item(i + 1))
  }

  lemma ItemsMore(n: nat)
    ensures Items(n) + [Item(n + 1)] == Items(n + 1)
    ensures Sorted(Items(n))
    ensures n != 0 ==> LargestId(Items(n)) == n
    ensures forall e: Event :: e in Items(n) <==> e == Item(e.id) && 1 <= e.id <= n
  {
    forall e: Event | e == Item(e.id) && 1 <= e.id <= n ensures e in Items(n) { assert Items(n)[e.id - 1] == e; }
    if n != 0 { SortedLargest(Items(n)); }
  }

  lemma MatchingMore(table: seq<Event>, session: SessionId, afterId: int, e: Event)
    ensures Matching(table + [e], session, afterId)
         == Matching(table, session, afterId) + if e.session == session && e.id > afterId then [e] else []
  {
    assert (table + [e])[..|table|] == table;
  }

  /** The events after an id. */
  function After(n: nat, afterId: nat): seq<Event> {
    if afterId <= n then Items(n)[afterId..] else []
  }

  lemma AfterMore(n: nat, afterId: nat)
    ensures After(n + 1, afterId) == After(n, afterId) + if n + 1 > afterId then [Item(n + 1)] else []
  {
    ItemsMore(n);
    if afterId <= n { assert (Items(n) + [Item(n + 1)])[afterId..] == Items(n)[afterId..] + [Item(n + 1)]; }
  }

  lemma {:induction false} MatchingItems(n: nat, afterId: nat)
    ensures Matching(Items(n), "s", afterId) == After(n, afterId)
  {
    if n != 0 {
      ItemsMore(n - 1);
      MatchingItems(n - 1, afterId);
      MatchingMore(Items(n - 1), "s", afterId, Item(n));
      AfterMore(n - 1, afterId);
    }
  }

  lemma AfterSorted(n: nat, afterId: nat)
    ensures Sorted(After(n, afterId))
  {
  }

  /** The page after an id: the next thousand events. */
  lemma ItemsPage(n: nat, afterId: nat)
    requires afterId <= n
    ensures ListAfter(Items(n), "s", afterId, PAGE_SIZE)
         == if n - afterId <= PAGE_SIZE then After(n, afterId) else After(n, afterId)[..PAGE_SIZE]
  {
    MatchingItems(n, afterId);
    AfterSorted(n, afterId);
    SortOfSorted(After(n, afterId));
  }

  function Filled(s: System, n: nat, conn: Option<Conn>): System {
    s.(nextId := n + 1, table := Items(n), conn := conn)
  }

  /** One more event is appended; a connection is offered it. */
  lemma Append(steps: seq<Step>, s: System, n: nat) returns (more: seq<Step>)
    requires Serial(TIGHT, steps) && Run(TIGHT, steps) == At(s)
    requires s.nextId == n + 1 && s.table == Items(n) && s.inserted == s.unpublished == {}
    requires s.conn.Some? ==> s.browser.source.Open? && s.browser.source.session == "s"
    ensures Serial(TIGHT, more)
    ensures Run(TIGHT, more)
         == At(Filled(s, n + 1, if s.conn.None? then None else Some(Offer(s.conn.value, Item(n + 1)))))
  {
    var e := Item(n + 1);
    var a := s.(nextId := n + 2, inserted := {e});
    more := Then(TIGHT, steps, s, Insert(e), a);
    ItemsMore(n);
    assert {e} - {e} == {} && {} + {e} == {e};
    var b := a.(inserted := {}, table := Items(n + 1), unpublished := {e});
    more := Then(TIGHT, more, a, Commit(e), b);
    more := Then(TIGHT, more, b, Publish(e),
                 Filled(s, n + 1, if s.conn.None? then None else Some(Offer(s.conn.value, e))));
  }

  lemma {:induction false} Fill(n: nat) returns (steps: seq<Step>)
    ensures Serial(TIGHT, steps) && Run(TIGHT, steps) == At(Filled(INITIAL, n, None))
  {
    if n == 0 {
      steps := [];
      assert Filled(INITIAL, 0, None) == INITIAL;
    } else {
      steps := Fill(n - 1);
      steps := Append(steps, Filled(INITIAL, n - 1, None), n - 1);
    }
  }

  /** A live connection whose two events overflow its queue of one, and which ends in a reset. */
  lemma OverflowQueue(steps: seq<Step>, s: System, k: Conn) returns (more: seq<Step>)
    requires Serial(TIGHT, steps) && Run(TIGHT, steps) == At(s) && s.wire == [] && s.conn == Some(k)
    requires k.phase.Streaming? && k.pumping && k.pumped == 0 && k.queue == [] && |k.received| == 2
    ensures Serial(TIGHT, more)
    ensures Run(TIGHT, more) == At(s.(conn := Some(k.(pumped := 2, pumping := false, phase := Ended)), wire := [Reset]))
  {
    assert s.wire + [] == s.wire && [] + [Live(k.received[0])] == [Live(k.received[0])];
    var queued := k.(pumped := 1, queue := [Live(k.received[0])]);
    more := Then(TIGHT, steps, s, Pump, s.(conn := Some(queued)));
    var overflown := k.(pumped := 2, queue := [Overflow], pumping := false);
    more := Then(TIGHT, more, s.(conn := Some(queued)), Pump, s.(conn := Some(overflown)));
    assert overflown.queue[1..] == [] && [] + [Reset] == [Reset];
    var ended := k.(pumped := 2, pumping := false, phase := Ended);
    assert Take(overflown) == ended;
    more := Then(TIGHT, more, s.(conn := Some(overflown)), Deliver, s.(conn := Some(ended), wire := [Reset]));
  }

  /** The browser receives the reset and asks for the events after its cursor; the answer is under way. */
  lemma AskAgain(steps: seq<Step>, s: System, page: seq<Event>) returns (more: seq<Step>)
    requires Serial(TIGHT, steps) && Run(TIGHT, steps) == At(s)
    requires s.wire == [Reset] && Current(s.browser) && s.requests == {}
    requires page == ListAfter(s.table, s.browser.session, s.browser.lastEventId, PAGE_SIZE)
    ensures Serial(TIGHT, more)
    ensures Run(TIGHT, more) == At(Offline(s, s.browser.(source := Unconnected)).(
      requests := {Recovering(s.browser).(page := Some(page))}))
  {
    var r := Recovering(s.browser);
    var a := Offline(s, s.browser.(source := Unconnected)).(requests := {r});
    assert {} + {r} == {r} && {} + {r.(page := Some(page))} == {r.(page := Some(page))};
    more := Then(TIGHT, steps, s, Receive, a);
    more := Reply(TIGHT, more, a, {}, r, page);
  }

  /** Overflow, reset and request in one. */
  lemma ResetAsks(steps: seq<Step>, e: System, k: Conn, b: Browser, page: seq<Event>) returns (more: seq<Step>, s: System)
    requires Serial(TIGHT, steps) && Run(TIGHT, steps) == At(e) && e.wire == [] && e.requests == {}
    requires e.conn == Some(k) && k.phase.Streaming? && k.pumping && k.pumped == 0 && k.queue == [] && |k.received| == 2
    requires e.browser == b && Current(b) && page == ListAfter(e.table, b.session, b.lastEventId, PAGE_SIZE)
    ensures Serial(TIGHT, more) && Run(TIGHT, more) == At(s)
    ensures s.table == e.table && s.failed == e.failed && s.browser == b.(source := Unconnected)
    ensures s.requests == {Recovering(b).(page := Some(page))}
  {
    more := OverflowQueue(steps, e, k);
    var f := e.(conn := Some(k.(pumped := 2, pumping := false, phase := Ended)), wire := [Reset]);
    more := AskAgain(more, f, page);
    s := Offline(f, b.(source := Unconnected)).(requests := {Recovering(b).(page := Some(page))});
  }

  // ---------- the session selected again ----------

  const LAST: nat := PAGE_SIZE + 1

  const OPENED: Conn := Subscribe(PAGE_SIZE)
  const REPLAYED: Conn := GoLive(OPENED.(lastSent := LAST, emitted := [Item(LAST)]))
  const LATER: seq<Event> := [Item(LAST + 1), Item(LAST + 2)]

  /** The list of a selection when there are more events than a page holds. */
  function Listed(version: int): Browser {
    Browser("s", Items(PAGE_SIZE), PAGE_SIZE, version, Open("s", version, PAGE_SIZE, 0))
  }

  lemma FirstPage(n: nat)
    requires PAGE_SIZE < n
    ensures ListAfter(Items(n), "s", 0, PAGE_SIZE) == Items(PAGE_SIZE)
  {
    ItemsPage(n, 0);
    assert After(n, 0)[..PAGE_SIZE] == Items(PAGE_SIZE);
  }

  lemma ChosenItems(b: Browser)
    ensures Chosen(b, "s", Items(PAGE_SIZE)) == Listed(b.version + 1)
  {
    ItemsMore(PAGE_SIZE);
  }

  lemma ChooseItems(steps: seq<Step>, s: System, n: nat) returns (more: seq<Step>)
    requires Serial(TIGHT, steps) && Run(TIGHT, steps) == At(s)
    requires s.table == Items(n) && PAGE_SIZE < n
    requires forall r :: r in s.requests ==> r.version <= s.browser.version
    ensures Serial(TIGHT, more) && Run(TIGHT, more) == At(Offline(s, Listed(s.browser.version + 1)))
  {
    FirstPage(n);
    more := Choose(TIGHT, steps, s, "s", Items(PAGE_SIZE));
    ChosenItems(s.browser);
  }

  lemma ReadLast(steps: seq<Step>, s: System) returns (more: seq<Step>)
    requires Serial(TIGHT, steps) && Run(TIGHT, steps) == At(s)
    requires s.conn == Some(OPENED) && s.table == Items(LAST) && s.browser == Listed(1)
    ensures Serial(TIGHT, more)
    ensures Run(TIGHT, more) == At(s.(conn := Some(OPENED.(phase := Sending([Item(LAST)], true)))))
  {
    ItemsPage(LAST, PAGE_SIZE);
    assert After(LAST, PAGE_SIZE) == [Item(LAST)];
    assert s.wire + [] == s.wire;
    var k := OPENED.(phase := Sending([Item(LAST)], true));
    assert ReadPage(OPENED, "s", s.table) == k;
    more := Then(TIGHT, steps, s, Read, s.(conn := Some(k)));
  }

  /** The stream of the first selection replays the one event after the list. */
  lemma Replay(steps: seq<Step>, s: System) returns (more: seq<Step>)
    requires Serial(TIGHT, steps) && Run(TIGHT, steps) == At(s)
    requires s == Offline(Filled(INITIAL, LAST, None), Listed(1))
    ensures Serial(TIGHT, more)
    ensures Run(TIGHT, more) == At(s.(conn := Some(REPLAYED), wire := [Retry, Ev(Item(LAST))]))
  {
    var a := s.(conn := Some(OPENED), wire := [Retry]);
    more := Then(TIGHT, steps, s, Connect, a);
    more := ReadLast(more, a);
    var b := a.(conn := Some(OPENED.(phase := Sending([Item(LAST)], true))));
    assert [] + [Item(LAST)] == [Item(LAST)] && [Retry] + [Ev(Item(LAST))] == [Retry, Ev(Item(LAST))];
    assert SendRow(b.conn.value) == REPLAYED;
    more := Then(TIGHT, more, b, Send, s.(conn := Some(REPLAYED), wire := [Retry, Ev(Item(LAST))]));
  }

  const CAUGHT_UP: Browser := Browser("s", Items(LAST), LAST, 1, Open("s", 1, PAGE_SIZE, LAST))

  lemma ReceiveReplay(steps: seq<Step>, s: System) returns (more: seq<Step>)
    requires Serial(TIGHT, steps) && Run(TIGHT, steps) == At(s)
    requires s.wire == [Retry, Ev(Item(LAST))] && s.browser == Listed(1)
    ensures Serial(TIGHT, more)
    ensures Run(TIGHT, more) == At(s.(wire := [], browser := CAUGHT_UP))
  {
    var a := s.(wire := [Ev(Item(LAST))]);
    assert s.wire[1..] == a.wire && a.wire[1..] == [];
    more := Then(TIGHT, steps, s, Receive, a);
    ItemsMore(PAGE_SIZE);
    AddNew(s.browser.(source := Open("s", 1, PAGE_SIZE, LAST)), Item(LAST));
    more := Then(TIGHT, more, a, Receive, s.(wire := [], browser := CAUGHT_UP));
  }

  const ANSWERED: Request := Recovering(CAUGHT_UP).(page := Some(LATER))

  /** The page arrives when the user has chosen the session again. */
  lemma Arrive(steps: seq<Step>, s: System) returns (more: seq<Step>)
    requires Serial(TIGHT, steps) && Run(TIGHT, steps) == At(s)
    requires s.browser == Listed(2) && s.requests == {ANSWERED} && s.table == Items(LAST + 2) && s.failed == {}
    requires Inv(TIGHT, s)
    ensures Serial(TIGHT, more) && Run(TIGHT, more).At?
    ensures var s' := Run(TIGHT, more).state;
      && s'.failed == {} && Item(LAST) in Unseen(s'.table, s'.browser)
      && s'.browser.session == "s" && s'.browser.source.Open? && !Current(s'.browser)
  {
    var s' := Apply(TIGHT, s, Resume(ANSWERED));
    more := Then(TIGHT, steps, s, Resume(ANSWERED), s');
    ItemsMore(LAST + 2);
    assert Item(LAST) in Skipped(s.table, "s", PAGE_SIZE, LATER);
    UnseenGrowth(TIGHT, s, Resume(ANSWERED));
    StepFrame(TIGHT, s, Resume(ANSWERED));
    ResumeFrame(TIGHT, s, ANSWERED);
  }

  lemma LaterPage()
    ensures ListAfter(Items(LAST + 2), "s", LAST, PAGE_SIZE) == LATER
  {
    ItemsPage(LAST + 2, LAST);
    assert After(LAST + 2, LAST) == LATER;
  }

  function Seen(): System {
    Filled(INITIAL, LAST, Some(REPLAYED)).(browser := CAUGHT_UP)
  }

  lemma ListsFirst(n: nat) returns (steps: seq<Step>)
    requires PAGE_SIZE < n
    ensures Serial(TIGHT, steps) && Run(TIGHT, steps) == At(Offline(Filled(INITIAL, n, None), Listed(1)))
  {
    var full := Filled(INITIAL, n, None);
    steps := Fill(n);
    steps := ChooseItems(steps, full, n);
  }

  /** The stream has shown the last event. */
  lemma SeesLast() returns (steps: seq<Step>)
    ensures Serial(TIGHT, steps) && Run(TIGHT, steps) == At(Seen())
  {
    steps := ListsFirst(LAST);
    var a := Offline(Filled(INITIAL, LAST, None), Listed(1));
    steps := Replay(steps, a);
    steps := ReceiveReplay(steps, a.(conn := Some(REPLAYED), wire := [Retry, Ev(Item(LAST))]));
    assert a.(conn := Some(REPLAYED), wire := [], browser := CAUGHT_UP) == Seen();
  }

  /** Two more events make the stream end in a reset, and the page asked for is under way. */
  lemma ResetAtLast() returns (steps: seq<Step>, s: System)
    ensures Serial(TIGHT, steps) && Run(TIGHT, steps) == At(s)
    ensures s.table == Items(LAST + 2) && s.failed == {} && s.requests == {ANSWERED} && s.browser.version == 1
  {
    steps := SeesLast();
    steps := AppendTwo(steps, Seen(), LAST);
    LaterPage();
    var k := REPLAYED.(received := LATER);
    steps, s := ResetAsks(steps, Filled(Seen(), LAST + 2, Some(k)), k, CAUGHT_UP, LATER);
  }

  /** More events than a page holds, a reset at the last of them, and a selection of the same session before the
      page that the reset asked for arrives: appends are serial and no publish fails, but the cursor has passed an
      event that is not shown, and the browser ends with a stream that it does not heed. */
  lemma StaleRecoveryLeavesAGap() returns (steps: seq<Step>)
    ensures Serial(TIGHT, steps) && Run(TIGHT, steps).At?
    ensures var s := Run(TIGHT, steps).state;
      && s.failed == {} && Item(LAST) in Unseen(s.table, s.browser)
      && s.browser.session == "s" && s.browser.source.Open? && !Current(s.browser)
  {
    var s;
    steps, s := ResetAtLast();
    steps := ChooseItems(steps, s, LAST + 2);
    RunKeeps(TIGHT, steps);
    steps := Arrive(steps, Offline(s, Listed(2)));
  }

  lemma AppendTwo(steps: seq<Step>, s: System, n: nat) returns (more: seq<Step>)
    requires Serial(TIGHT, steps) && Run(TIGHT, steps) == At(s)
    requires s.nextId == n + 1 && s.table == Items(n) && s.inserted == s.unpublished == {}
    requires s.conn.Some? && !s.conn.value.phase.Ended? && s.conn.value.received == []
    requires s.browser.source.Open? && s.browser.source.session == "s"
    ensures Serial(TIGHT, more)
    ensures Run(TIGHT, more)
         == At(Filled(s, n + 2, Some(s.conn.value.(received := [Item(n + 1), Item(n + 2)]))))
  {
    more := Append(steps, s, n);
    var k := s.conn.value.(received := [Item(n + 1)]);
    assert [] + [Item(n + 1)] == [Item(n + 1)] && [Item(n + 1)] + [Item(n + 2)] == [Item(n + 1), Item(n + 2)];
    assert Offer(s.conn.value, Item(n + 1)) == k;
    more := Append(more, Filled(s, n + 1, Some(k)), n + 1);
    assert Offer(k, Item(n + 2)) == s.conn.value.(received := [Item(n + 1), Item(n + 2)]);
  }

  // ---------- another session selected ----------

  const EMPTY: Browser := Browser("s", [], 0, 1, Open("s", 1, 0, 0))
  const STARTED: Conn := GoLive(Subscribe(0))
  const FIRST_TWO: seq<Event> := [Item(1), Item(2)]

  /** A session without events is shown and its stream is live. */
  lemma Begin() returns (steps: seq<Step>)
    ensures Serial(TIGHT, steps)
    ensures Run(TIGHT, steps) == At(INITIAL.(conn := Some(STARTED), browser := EMPTY))
  {
    EmptyPage("s");
    steps := Choose(TIGHT, [], INITIAL, "s", []);
    assert Offline(INITIAL, Chosen(INITIAL.browser, "s", [])) == INITIAL.(browser := EMPTY);
    var a := INITIAL.(conn := Some(Subscribe(0)), wire := [Retry], browser := EMPTY);
    steps := Then(TIGHT, steps, INITIAL.(browser := EMPTY), Connect, a);
    assert [Retry] + [] == [Retry] && [Retry][1..] == [];
    steps := Then(TIGHT, steps, a, Read, a.(conn := Some(STARTED)));
    steps := Then(TIGHT, steps, a.(conn := Some(STARTED)), Receive, a.(conn := Some(STARTED), wire := []));
  }

  lemma {:induction false} NoneOfOther(n: nat)
    ensures Matching(Items(n), "t", 0) == []
  {
    if n != 0 {
      NoneOfOther(n - 1);
      ItemsMore(n - 1);
      MatchingMore(Items(n - 1), "t", 0, Item(n));
    }
  }

  lemma FirstTwoPage()
    ensures ListAfter(Items(2), "s", 0, PAGE_SIZE) == FIRST_TWO
  {
    ItemsPage(2, 0);
    assert After(2, 0) == FIRST_TWO;
  }

  /** Two events make the stream end in a reset, and the page asked for is under way. */
  lemma ResetAtStart() returns (steps: seq<Step>, s: System)
    ensures Serial(TIGHT, steps) && Run(TIGHT, steps) == At(s)
    ensures s.table == Items(2) && s.failed == {} && s.requests == {LATE} && s.browser == EMPTY.(source := Unconnected)
  {
    steps := Begin();
    var a := INITIAL.(conn := Some(STARTED), browser := EMPTY);
    assert Items(0) == [];
    steps := AppendTwo(steps, a, 0);
    FirstTwoPage();
    var k := STARTED.(received := FIRST_TWO);
    steps, s := ResetAsks(steps, Filled(a, 2, Some(k)), k, EMPTY, FIRST_TWO);
  }

  const OTHER: Browser := Browser("t", [], 0, 2, Open("t", 2, 0, 0))
  const LATE: Request := Recovering(EMPTY).(page := Some(FIRST_TWO))

  lemma ArriveElsewhere(steps: seq<Step>, s: System) returns (more: seq<Step>)
    requires Serial(TIGHT, steps) && Run(TIGHT, steps) == At(s)
    requires s.browser == OTHER && s.failed == {} && LATE in s.requests
    ensures Serial(TIGHT, more) && Run(TIGHT, more).At?
    ensures var s' := Run(TIGHT, more).state;
      s'.failed == {} && s'.browser.session == "t" && Foreign(s'.browser) == RowsOf(FIRST_TWO) && !Current(s'.browser)
  {
    var s' := Apply(TIGHT, s, Resume(LATE));
    more := Then(TIGHT, steps, s, Resume(LATE), s');
    AlwaysVersions(TIGHT, steps);
    ForeignGrowth(TIGHT, s, Resume(LATE));
    StepFrame(TIGHT, s, Resume(LATE));
    ResumeFrame(TIGHT, s, LATE);
    assert Foreign(OTHER) == {} && Strange(OTHER, Resume(LATE));
  }

  /** The page that a reset asked for arrives when another session is shown: the list of that session holds
      the events of the first one. */
  lemma StaleRecoveryMixesSessions() returns (steps: seq<Step>)
    ensures Serial(TIGHT, steps) && Run(TIGHT, steps).At?
    ensures var s := Run(TIGHT, steps).state;
      s.failed == {} && s.browser.session == "t" && Foreign(s.browser) == RowsOf(FIRST_TWO) && !Current(s.browser)
  {
    var s;
    steps, s := ResetAtStart();
    NoneOfOther(2);
    steps := Choose(TIGHT, steps, s, "t", []);
    assert Chosen(s.browser, "t", []) == OTHER;
    steps := ArriveElsewhere(steps, Offline(s, OTHER));
  }
}
