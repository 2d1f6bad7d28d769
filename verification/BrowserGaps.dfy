/** Exactly which committed events the browser has passed without showing them, and which it shows that are
    not of the session shown, over any run, with no hypothesis on appends: across drops, reconnects, resets,
    and history pages that arrive after the selection they were asked under. And what serial appends leave of it. */
module BrowserGaps {
  import opened Events
  import opened Stream
  import opened Delivery
  import opened DeliverySafety
  import opened DeliveryExact
  import opened DeliveryTheorems
  import opened Wrappers

  // ---------- versions ----------

  /** At most one request of the current version is in flight, and while it is the browser heeds no stream; the
      page of a reset received under the current version is of the session shown and starts at or below the
      cursor; a stream that is heeded is one of the session shown. */
  ghost predicate VersionInv(b: Browser, requests: set<Request>) {
    && (forall r :: r in requests ==> r.version <= b.version)
    && (b.source.Open? ==> b.source.version <= b.version)
    && (forall r, q :: r in requests && q in requests && r.version == q.version == b.version ==> r == q)
    && (forall r :: r in requests && r.version == b.version ==>
          !Current(b) && (r.purpose.Recovery? ==> r.session == b.session && r.afterId <= b.lastEventId))
    && (Current(b) ==> b.source.session == b.session)
  }

  lemma ResumeVersions(c: Config, s: System, r: Request)
    requires Inv(c, s) && VersionInv(s.browser, s.requests) && Enabled(c, s, Resume(r)) && Effective(s.browser, r)
    ensures VersionInv(Resumed(s.browser, r), s.requests - {r})
  {
    if r.purpose.Recovery? {
      assert RequestInv(s.table, r);
      CursorNonNegative(s);
      AddAllMerges(s.table, s.browser, r.page.value);
    }
  }

  lemma NoticedVersions(b: Browser, requests: set<Request>, e: Event)
    requires VersionInv(b, requests)
    ensures VersionInv(Noticed(b, e), requests)
  {
  }

  lemma ReceiveVersions(s: System)
    requires VersionInv(s.browser, s.requests) && s.wire != []
    ensures VersionInv(Received(s).browser, Received(s).requests)
  {
    if s.wire[0].Ev? { NoticedVersions(s.browser, s.requests, s.wire[0].event); }
  }

  lemma AnswerVersions(c: Config, s: System, r: Request)
    requires VersionInv(s.browser, s.requests) && Enabled(c, s, Answer(r))
    ensures VersionInv(Apply(c, s, Answer(r)).browser, Apply(c, s, Answer(r)).requests)
  {
  }

  lemma OtherVersions(c: Config, s: System, step: Step)
    requires VersionInv(s.browser, s.requests) && Enabled(c, s, step)
    requires !step.Receive? && !step.Resume? && !step.Answer?
    ensures VersionInv(Apply(c, s, step).browser, Apply(c, s, step).requests)
  {
  }

  lemma StepVersions(c: Config, s: System, step: Step)
    requires Inv(c, s) && VersionInv(s.browser, s.requests) && Enabled(c, s, step)
    ensures VersionInv(Apply(c, s, step).browser, Apply(c, s, step).requests)
  {
    if step.Receive? {
      ReceiveVersions(s);
      assert Apply(c, s, step) == Received(s);
    } else if step.Answer? {
      AnswerVersions(c, s, step.request);
    } else if step.Resume? {
      if Effective(s.browser, step.request) { ResumeVersions(c, s, step.request); }
    } else {
      OtherVersions(c, s, step);
    }
  }

  lemma {:induction false} AlwaysVersions(c: Config, steps: seq<Step>)
    ensures Run(c, steps).At? ==>
      Inv(c, Run(c, steps).state) && VersionInv(Run(c, steps).state.browser, Run(c, steps).state.requests)
  {
    RunKeeps(c, steps);
    if steps != [] && Run(c, steps).At? {
      var n := |steps| - 1;
      AlwaysVersions(c, steps[..n]);
      StepVersions(c, Run(c, steps[..n]).state, steps[n]);
    }
  }

  lemma {:induction false} AddAllFrame(b: Browser, es: seq<Event>)
    ensures AddAll(b, es).version == b.version && AddAll(b, es).session == b.session
    decreases es
  {
    if es != [] { AddAllFrame(AddEvent(b, es[0]), es[1..]); }
  }

  /** A selection takes effect at this step. */
  predicate Shows(b: Browser, step: Step) {
    step.Resume? && step.request.purpose.Selection? && Effective(b, step.request)
  }

  /** The page of a reset is added at this step. */
  predicate Recovers(step: Step) {
    step.Resume? && step.request.purpose.Recovery?
  }

  /** What changes the version and the session shown. */
  lemma StepFrame(c: Config, s: System, step: Step)
    requires Enabled(c, s, step)
    ensures Apply(c, s, step).browser.version == s.browser.version + if step.Select? then 1 else 0
    ensures Apply(c, s, step).browser.session == if Shows(s.browser, step) then step.request.session else s.browser.session
  {
    if step.Resume? { AddAllFrame(s.browser, step.request.page.value); }
  }

  // ---------- passed and foreign events ----------

  /** Committed events of the session shown, up to the cursor, that are not shown. */
  function Unseen(table: seq<Event>, b: Browser): set<Event> {
    set e | e in table && e.session == b.session && e.id <= b.lastEventId && e !in b.events
  }

  /** Events of other sessions in the list. */
  function Foreign(b: Browser): set<Event> {
    set e | e in b.events && e.session != b.session
  }

  /** The list is exactly the committed events of the session shown up to the cursor. */
  ghost predicate Complete(table: seq<Event>, b: Browser) {
    forall e :: e in b.events <==> e in table && e.session == b.session && e.id <= b.lastEventId
  }

  lemma BelowCursor(c: Config, s: System)
    requires Inv(c, s)
    ensures forall x :: x in s.browser.events ==> x in s.table && x.id <= s.browser.lastEventId
    ensures DistinctIds(s.table)
  {
    forall x | x in s.browser.events ensures x.id <= s.browser.lastEventId { LastIsLargest(s.browser.events, x, 0); }
  }

  lemma CompleteIff(c: Config, s: System)
    requires Inv(c, s)
    ensures Complete(s.table, s.browser) <==> Unseen(s.table, s.browser) == {} && Foreign(s.browser) == {}
  {
    BelowCursor(c, s);
    var b := s.browser;
    if Unseen(s.table, b) == {} && Foreign(b) == {} {
      forall e | e in s.table && e.session == b.session && e.id <= b.lastEventId ensures e in b.events {
        assert e !in Unseen(s.table, b);
      }
      forall e | e in b.events ensures e.session == b.session { assert e !in Foreign(b); }
    }
  }

  function RowsOf(es: seq<Event>): set<Event> {
    set e | e in es
  }

  /** Rows above `low` that a page which reaches further does not hold. */
  function Skipped(table: seq<Event>, session: SessionId, low: int, page: seq<Event>): set<Event> {
    set e | e in table && e.session == session && low < e.id <= LastId(page, low) && e !in page
  }

  /** The events a step makes the browser pass, read off the state before it: a row committed at or below the
      cursor, the committed rows between the cursor and an event received, and the rows that a history page
      moves the cursor over. */
  function Passed(c: Config, s: System, step: Step): set<Event>
    requires Enabled(c, s, step)
  {
    var b := s.browser;
    match step
    case Commit(row) => if row.session == b.session && row.id <= b.lastEventId then {row} else {}
    case Receive =>
      if s.wire[0].Ev? && Current(b) then Between(s.table, b.session, b.lastEventId, s.wire[0].event.id) else {}
    case Resume(r) =>
      if !Effective(b, r) then {}
      else if r.purpose.Selection? then Skipped(s.table, r.session, 0, r.page.value)
      else Skipped(s.table, b.session, b.lastEventId, r.page.value)
    case _ => {}
  }

  /** What a step leaves of a gap: a selection drops the list, and a page shows what it holds. */
  function Remaining(b: Browser, step: Step, gap: set<Event>): set<Event>
    requires step.Resume? ==> step.request.page.Some?
  {
    if Shows(b, step) then {}
    else if Recovers(step) then set e | e in gap && e !in step.request.page.value
    else gap
  }

  /** The page of a reset received while another session was shown. */
  predicate Strange(b: Browser, step: Step)
    requires step.Resume? ==> step.request.page.Some?
  {
    Recovers(step) && step.request.session != b.session && step.request.page.value != []
  }

  // ---------- one step ----------

  lemma CommitPasses(c: Config, s: System, row: Event)
    requires TableInv(s) && BrowserInv(s.table, s.browser) && row in s.inserted
    ensures var s' := Apply(c, s, Commit(row));
      Unseen(s'.table, s'.browser) == Unseen(s.table, s.browser) + Passed(c, s, Commit(row))
  {
    assert row !in s.table && row !in s.browser.events;
    assert forall e :: e in s.table + [row] <==> e in s.table || e == row;
    assert Apply(c, s, Commit(row)).table == s.table + [row];
  }

  lemma ShowPasses(table: seq<Event>, b: Browser, b': Browser, e: Event)
    requires DistinctIds(table) && e in table && b.lastEventId < e.id
    requires forall x :: x in b.events ==> x.id <= b.lastEventId
    requires b'.events == b.events + [e] && b'.lastEventId == e.id && b'.session == b.session
    ensures Unseen(table, b') == Unseen(table, b) + Between(table, b.session, b.lastEventId, e.id)
  {
    forall x | x in table && x.id == e.id ensures x == e { SameRow(table, x, e); }
    assert forall x :: x in b'.events <==> x in b.events || x == e;
  }

  lemma SameUnseen(table: seq<Event>, b: Browser, b': Browser)
    requires b'.events == b.events && b'.lastEventId == b.lastEventId && b'.session == b.session
    ensures Unseen(table, b') == Unseen(table, b) + {} && Foreign(b') == Foreign(b)
  {
  }

  lemma RowPasses(c: Config, s: System)
    requires Inv(c, s) && s.wire != [] && s.wire[0].Ev? && Current(s.browser)
    ensures Unseen(s.table, Received(s).browser)
         == Unseen(s.table, s.browser) + Between(s.table, s.browser.session, s.browser.lastEventId, s.wire[0].event.id)
  {
    PendingIsNew(c, s);
    ReceiveRow(c, s);
    BelowCursor(c, s);
    StepFrame(c, s, Receive);
    ShowPasses(s.table, s.browser, Received(s).browser, s.wire[0].event);
  }

  lemma OtherReceived(c: Config, s: System)
    requires s.wire != [] && !(s.wire[0].Ev? && Current(s.browser))
    ensures Unseen(s.table, Received(s).browser) == Unseen(s.table, s.browser) + {}
    ensures Foreign(Received(s).browser) == Foreign(s.browser)
  {
    ReceivedFrame(s);
    StepFrame(c, s, Receive);
    SameUnseen(s.table, s.browser, Received(s).browser);
  }

  lemma ReceivePasses(c: Config, s: System)
    requires Inv(c, s) && s.wire != []
    ensures Unseen(s.table, Received(s).browser) == Unseen(s.table, s.browser) + Passed(c, s, Receive)
  {
    if s.wire[0].Ev? && Current(s.browser) { RowPasses(c, s); } else { OtherReceived(c, s); }
  }

  /** A page merged into the list. */
  lemma MergePasses(table: seq<Event>, b: Browser, page: seq<Event>, b': Browser)
    requires AllAbove(page, 0) && 0 <= b.lastEventId
    requires forall e :: e in b'.events <==> e in b.events || e in page
    requires b'.lastEventId == Max(b.lastEventId, LastId(page, 0)) && b'.session == b.session
    requires forall e :: e in b.events ==> e.id <= b.lastEventId
    ensures Unseen(table, b')
         == (set e | e in Unseen(table, b) && e !in page) + Skipped(table, b.session, b.lastEventId, page)
  {
  }

  lemma RecoveryPasses(c: Config, s: System, r: Request)
    requires Inv(c, s) && Enabled(c, s, Resume(r)) && r.purpose.Recovery?
    ensures Unseen(s.table, Resumed(s.browser, r))
         == Remaining(s.browser, Resume(r), Unseen(s.table, s.browser)) + Passed(c, s, Resume(r))
  {
    var b, page := s.browser, r.page.value;
    assert RequestInv(s.table, r);
    CursorNonNegative(s);
    BelowCursor(c, s);
    AddAllMerges(s.table, b, page);
    MergePasses(s.table, b, page, Resumed(b, r));
  }

  lemma SelectionPasses(c: Config, s: System, r: Request)
    requires Inv(c, s) && Enabled(c, s, Resume(r)) && Shows(s.browser, Resume(r))
    ensures Unseen(s.table, Resumed(s.browser, r)) == Passed(c, s, Resume(r))
    ensures Foreign(Resumed(s.browser, r)) == {}
  {
    assert RequestInv(s.table, r);
    SortedLargest(r.page.value);
    assert forall e :: e in s.table ==> 0 < e.id;
  }

  /** The other steps leave the table and what the browser shows alone. */
  lemma OtherPasses(c: Config, s: System, step: Step)
    requires Enabled(c, s, step) && !step.Commit? && !step.Receive? && !Shows(s.browser, step) && !Recovers(step)
    ensures Passed(c, s, step) == {}
    ensures var s' := Apply(c, s, step);
      && s'.table == s.table
      && s'.browser.events == s.browser.events && s'.browser.lastEventId == s.browser.lastEventId
      && s'.browser.session == s.browser.session
  {
  }

  /** The events the browser has passed unseen change, at every step, by exactly `Remaining` and `Passed`. */
  lemma UnseenGrowth(c: Config, s: System, step: Step)
    requires Inv(c, s) && Enabled(c, s, step)
    ensures Unseen(Apply(c, s, step).table, Apply(c, s, step).browser)
         == Remaining(s.browser, step, Unseen(s.table, s.browser)) + Passed(c, s, step)
  {
    if step.Commit? {
      CommitPasses(c, s, step.row);
    } else if step.Receive? {
      ReceivePasses(c, s);
      ReceivedFrame(s);
      assert Apply(c, s, step) == Received(s);
    } else if Shows(s.browser, step) {
      SelectionPasses(c, s, step.request);
      ResumeFrame(c, s, step.request);
    } else if Recovers(step) {
      RecoveryPasses(c, s, step.request);
      ResumeFrame(c, s, step.request);
    } else {
      OtherPasses(c, s, step);
      SameUnseen(s.table, s.browser, Apply(c, s, step).browser);
    }
  }

  lemma ResumeFrame(c: Config, s: System, r: Request)
    requires Enabled(c, s, Resume(r)) && Effective(s.browser, r)
    ensures Apply(c, s, Resume(r)).browser == Resumed(s.browser, r) && Apply(c, s, Resume(r)).table == s.table
  {
  }

  /** Events of another session come into the list with the page of a reset that was received while that
      session was shown, and in no other way; a selection removes them. */
  lemma ForeignGrowth(c: Config, s: System, step: Step)
    requires Inv(c, s) && VersionInv(s.browser, s.requests) && Enabled(c, s, step)
    ensures Foreign(Apply(c, s, step).browser) ==
      (if Shows(s.browser, step) then {} else Foreign(s.browser))
      + (if Strange(s.browser, step) then RowsOf(step.request.page.value) else {})
  {
    if step.Receive? {
      assert Apply(c, s, step) == Received(s);
      if s.wire[0].Ev? && Current(s.browser) { OwnReceived(c, s); } else { OtherReceived(c, s); }
    } else if Shows(s.browser, step) {
      SelectionPasses(c, s, step.request);
      ResumeFrame(c, s, step.request);
    } else if Recovers(step) {
      RecoveryForeign(c, s, step.request);
      ResumeFrame(c, s, step.request);
    } else if step.Commit? {
      assert Apply(c, s, step).browser == s.browser;
    } else {
      OtherPasses(c, s, step);
      SameUnseen(s.table, s.browser, Apply(c, s, step).browser);
    }
  }

  lemma OwnReceived(c: Config, s: System)
    requires Inv(c, s) && s.wire != [] && s.wire[0].Ev? && Current(s.browser)
    requires s.browser.source.session == s.browser.session
    ensures Foreign(Received(s).browser) == Foreign(s.browser)
  {
    PendingIsNew(c, s);
    ReceiveRow(c, s);
    StepFrame(c, s, Receive);
    assert forall x :: x in Received(s).browser.events <==> x in s.browser.events || x == s.wire[0].event;
  }

  lemma RecoveryForeign(c: Config, s: System, r: Request)
    requires Inv(c, s) && Enabled(c, s, Resume(r)) && r.purpose.Recovery?
    ensures Foreign(Resumed(s.browser, r)) ==
      Foreign(s.browser) + (if Strange(s.browser, Resume(r)) then RowsOf(r.page.value) else {})
  {
    assert RequestInv(s.table, r);
    CursorNonNegative(s);
    AddAllMerges(s.table, s.browser, r.page.value);
  }

  /** An event the cursor has passed is shown by no later step but a history page that holds it; only a new
      selection drops it from what was passed. */
  lemma PassedStaysMissing(c: Config, s: System, step: Step, e: Event)
    requires Inv(c, s) && Enabled(c, s, step) && e in Unseen(s.table, s.browser)
    requires !Shows(s.browser, step) && (Recovers(step) ==> e !in step.request.page.value)
    ensures e in Unseen(Apply(c, s, step).table, Apply(c, s, step).browser)
  {
    UnseenGrowth(c, s, step);
  }

  // ---------- whole runs ----------

  /** What a run has left behind: the events passed, less those that pages have shown since. */
  function LeftBehind(c: Config, steps: seq<Step>): set<Event> {
    if steps == [] then {}
    else
      var n := |steps| - 1;
      match Run(c, steps[..n])
      case Stuck => {}
      case At(s) =>
        if !Enabled(c, s, steps[n]) then {}
        else Remaining(s.browser, steps[n], LeftBehind(c, steps[..n])) + Passed(c, s, steps[n])
  }

  /** Since the last selection took effect no page of a reset for another session was added. */
  predicate OwnPages(c: Config, steps: seq<Step>) {
    steps == [] ||
    (var n := |steps| - 1;
     match Run(c, steps[..n])
     case Stuck => true
     case At(s) =>
       Enabled(c, s, steps[n]) ==>
         Shows(s.browser, steps[n]) || (OwnPages(c, steps[..n]) && !Strange(s.browser, steps[n])))
  }

  lemma {:induction false} UnseenIsLeftBehind(c: Config, steps: seq<Step>)
    requires Run(c, steps).At?
    ensures var s := Run(c, steps).state; Unseen(s.table, s.browser) == LeftBehind(c, steps)
  {
    if steps != [] {
      var n := |steps| - 1;
      UnseenIsLeftBehind(c, steps[..n]);
      RunKeeps(c, steps[..n]);
      UnseenGrowth(c, Run(c, steps[..n]).state, steps[n]);
    }
  }

  lemma StrangeIsForeign(b: Browser, step: Step)
    requires Recovers(step) && step.request.page.Some? && Strange(b, step)
    ensures RowsOf(step.request.page.value) != {}
  {
    assert step.request.page.value[0] in RowsOf(step.request.page.value);
  }

  /** Every event in the list is of the session shown if and only if, since the selection took effect, no page
      was added that a reset had asked for while another session was shown. */
  lemma {:induction false} ListIsOwnIff(c: Config, steps: seq<Step>)
    requires Run(c, steps).At?
    ensures Foreign(Run(c, steps).state.browser) == {} <==> OwnPages(c, steps)
  {
    if steps != [] {
      var n := |steps| - 1;
      ListIsOwnIff(c, steps[..n]);
      AlwaysVersions(c, steps[..n]);
      var s := Run(c, steps[..n]).state;
      ForeignGrowth(c, s, steps[n]);
      if Strange(s.browser, steps[n]) { StrangeIsForeign(s.browser, steps[n]); }
    }
  }

  /** End to end, whatever the appends, drops, reconnects, resets and selections: the browser's list is exactly the
      committed events of the session shown up to its cursor if and only if every event that a step since the
      selection has passed was shown by a page later, and no page of another session was added. */
  lemma BrowserIsCompleteIff(c: Config, steps: seq<Step>)
    requires Run(c, steps).At?
    ensures var s := Run(c, steps).state;
      Complete(s.table, s.browser) <==> LeftBehind(c, steps) == {} && OwnPages(c, steps)
  {
    RunKeeps(c, steps);
    UnseenIsLeftBehind(c, steps);
    ListIsOwnIff(c, steps);
    CompleteIff(c, Run(c, steps).state);
  }

  // ---------- the pages in flight ----------

  /** What the page of a request leaves out of the range it covers. */
  function PageGap(table: seq<Event>, r: Request): set<Event>
    requires r.page.Some?
  {
    Skipped(table, r.session, r.afterId, r.page.value)
  }

  /** The rows of a commit in the range of a page. */
  function InRange(r: Request, step: Step): set<Event>
    requires r.page.Some?
  {
    if step.Commit? && step.row.session == r.session && r.afterId < step.row.id <= LastId(r.page.value, r.afterId)
    then {step.row} else {}
  }

  /** A page leaves out nothing when it is read, and until it arrives exactly the rows committed in its range. */
  lemma PageGapGrowth(c: Config, s: System, step: Step, r: Request)
    requires Inv(c, s) && Enabled(c, s, step) && r.page.Some? && r in Apply(c, s, step).requests
    ensures PageGap(Apply(c, s, step).table, r) == (if r !in s.requests then {} else PageGap(s.table, r)) + InRange(r, step)
  {
    if step.Commit? {
      CommitGap(s, step.row, r);
    } else if step.Answer? {
      PageShows(Config(step.request.session, 0), s.table, step.request.afterId);
    } else if step.Receive? {
      ReceivedFrame(s);
    } else {
      OtherRequests(c, s, step, r);
    }
  }

  lemma CommitGap(s: System, row: Event, r: Request)
    requires TableInv(s) && RequestsInv(s.table, s.requests) && row in s.inserted && r in s.requests && r.page.Some?
    ensures PageGap(s.table + [row], r) == PageGap(s.table, r) + InRange(r, Commit(row))
  {
    assert RequestInv(s.table, r);
    assert row !in s.table && row !in r.page.value;
    assert forall e :: e in s.table + [row] <==> e in s.table || e == row;
  }

  lemma OtherRequests(c: Config, s: System, step: Step, r: Request)
    requires Enabled(c, s, step) && !step.Commit? && !step.Answer? && !step.Receive?
    requires r in Apply(c, s, step).requests && r.page.Some?
    ensures r in s.requests && Apply(c, s, step).table == s.table
  {
  }

  // ---------- serial appends ----------

  /** Committed rows of a session above `low` up to `high`. */
  function UpTo(table: seq<Event>, session: SessionId, low: int, high: int): set<Event> {
    set e | e in table && e.session == session && low < e.id <= high
  }

  lemma PageSkips(c: Config, table: seq<Event>, r: Request, low: int)
    requires RequestInv(table, r) && r.page.Some? && PageComplete(c, table, r.afterId, r.page.value) && r.session == c.session
    ensures Skipped(table, r.session, low, r.page.value)
         == if r.page.value == [] then {} else UpTo(table, r.session, low, r.afterId)
  {
    if r.page.value != [] { assert r.page.value[|r.page.value| - 1] in r.page.value; }
  }

  /** A list of the session's own events ends below a row committed serially. */
  lemma OwnCursor(c: Config, s: System, row: Event)
    requires Inv(c, s) && OneAtATime(c, s.table, s.inserted + s.unpublished)
    requires row in s.inserted && row.session == c.session == s.browser.session && Foreign(s.browser) == {}
    ensures s.browser.lastEventId < row.id
  {
    CommitIsNewest(c, s, row);
    var es := s.browser.events;
    if es != [] {
      assert es[|es| - 1] in es && es[|es| - 1] !in Foreign(s.browser);
    }
  }

  /** While a session is shown whose appends are serial, and nothing else, a commit passes nothing. */
  lemma SerialCommitPasses(c: Config, s: System, row: Event)
    requires Inv(c, s) && Exact(c, s) && Enabled(c, s, Commit(row)) && s.browser.session == c.session && Foreign(s.browser) == {}
    ensures Passed(c, s, Commit(row)) == {}
  {
    if row.session == c.session { OwnCursor(c, s, row); }
  }

  /** A receipt passes only events whose publish failed. */
  lemma SerialReceiptPasses(c: Config, s: System)
    requires Inv(c, s) && Exact(c, s) && VersionInv(s.browser, s.requests) && s.wire != [] && s.browser.session == c.session
    ensures Passed(c, s, Receive) <= s.failed
  {
    forall e | e in Passed(c, s, Receive) ensures e in s.failed { ReceiptSkipsFailed(c, s, e); }
  }

  /** The list of a selection leaves nothing behind. */
  lemma SerialSelectionPasses(c: Config, s: System, r: Request)
    requires Inv(c, s) && Exact(c, s) && Enabled(c, s, Resume(r)) && Shows(s.browser, Resume(r)) && r.session == c.session
    ensures Passed(c, s, Resume(r)) == {}
  {
    assert RequestInv(s.table, r) && PageComplete(c, s.table, r.afterId, r.page.value);
    PageSkips(c, s.table, r, 0);
    assert forall e :: e in s.table ==> 0 < e.id;
  }

  /** The page of a reset passes exactly the rows between the cursor and the id it was asked after, unless it is
      empty: none if it is added under the selection that received the reset. */
  lemma SerialRecoveryPasses(c: Config, s: System, r: Request)
    requires Inv(c, s) && Exact(c, s) && VersionInv(s.browser, s.requests) && Enabled(c, s, Resume(r)) && r.purpose.Recovery?
    requires s.browser.session == c.session
    ensures r.session == c.session ==>
      Passed(c, s, Resume(r)) ==
        if r.page.value == [] then {} else UpTo(s.table, c.session, s.browser.lastEventId, r.afterId)
    ensures r.session != c.session ==>
      Passed(c, s, Resume(r)) ==
        UpTo(s.table, c.session, s.browser.lastEventId, LastId(r.page.value, s.browser.lastEventId))
    ensures r.version == s.browser.version ==> r.session == c.session && Passed(c, s, Resume(r)) == {}
  {
    assert RequestInv(s.table, r);
    if r.session == c.session {
      assert PageComplete(c, s.table, r.afterId, r.page.value);
      PageSkips(c, s.table, r, s.browser.lastEventId);
    } else {
      assert forall e :: e in r.page.value ==> e.session != c.session;
    }
  }

  /** The page of a reset is added only under the selection that received the reset. */
  ghost predicate TimelyStep(s: System, step: Step) {
    Recovers(step) ==> step.request.version == s.browser.version
  }

  ghost predicate Timely(c: Config, steps: seq<Step>) {
    steps == [] ||
    (var n := |steps| - 1;
     Timely(c, steps[..n]) && (Run(c, steps[..n]).At? ==> TimelyStep(Run(c, steps[..n]).state, steps[n])))
  }

  /** No selection is made while the request of a reset is in flight. */
  ghost predicate Undisturbed(c: Config, steps: seq<Step>) {
    steps == [] ||
    (var n := |steps| - 1;
     Undisturbed(c, steps[..n]) &&
     (Run(c, steps[..n]).At? && steps[n].Select? ==>
        forall r :: r in Run(c, steps[..n]).state.requests ==> r.purpose.Selection?))
  }

  ghost predicate RecoveriesCurrent(s: System) {
    forall r :: r in s.requests && r.purpose.Recovery? ==> r.version == s.browser.version
  }

  /** Where the requests of resets come from. */
  lemma StepRequests(c: Config, s: System, step: Step, r: Request)
    requires Enabled(c, s, step) && r in Apply(c, s, step).requests && r.purpose.Recovery?
    ensures r in s.requests
         || (step.Receive? && r.version == s.browser.version)
         || (step.Answer? && step.request in s.requests && step.request.purpose.Recovery? && r.version == step.request.version)
  {
  }

  lemma KeepsCurrent(c: Config, s: System, step: Step)
    requires RecoveriesCurrent(s) && Enabled(c, s, step)
    requires step.Select? ==> forall r :: r in s.requests ==> r.purpose.Selection?
    ensures RecoveriesCurrent(Apply(c, s, step))
  {
    StepFrame(c, s, step);
    forall r | r in Apply(c, s, step).requests && r.purpose.Recovery?
      ensures r.version == Apply(c, s, step).browser.version
    {
      StepRequests(c, s, step, r);
    }
  }

  lemma {:induction false} UndisturbedIsTimely(c: Config, steps: seq<Step>)
    requires Run(c, steps).At? && Undisturbed(c, steps)
    ensures Timely(c, steps) && RecoveriesCurrent(Run(c, steps).state)
  {
    if steps != [] {
      var n := |steps| - 1;
      UndisturbedIsTimely(c, steps[..n]);
      KeepsCurrent(c, Run(c, steps[..n]).state, steps[n]);
    }
  }

  /** Every page of a reset in flight was asked for at the cursor, for the session shown. */
  ghost predicate AtCursor(b: Browser, requests: set<Request>) {
    forall r :: r in requests && r.purpose.Recovery? ==> r.afterId == b.lastEventId && r.session == b.session
  }

  /** The cursor and the session shown stay while the request of a reset is in flight. */
  lemma CursorStays(c: Config, s: System, step: Step, r: Request)
    requires Inv(c, s) && VersionInv(s.browser, s.requests) && Enabled(c, s, step) && RecoveriesCurrent(s)
    requires r in s.requests && r.purpose.Recovery? && (step.Resume? ==> r != step.request)
    ensures Apply(c, s, step).browser.lastEventId == s.browser.lastEventId
    ensures Apply(c, s, step).browser.session == s.browser.session
  {
    StepFrame(c, s, step);
    if step.Receive? { ReceivedFrame(s); }
  }

  lemma NewRecovery(c: Config, s: System, step: Step, r: Request)
    requires Enabled(c, s, step) && r in Apply(c, s, step).requests && r !in s.requests && r.purpose.Recovery?
    ensures (step.Receive? && r == Recovering(s.browser) && Current(s.browser) && !s.wire[0].Ev?)
         || (step.Answer? && step.request in s.requests && r == Answered(step.request, s.table))
  {
  }

  lemma StepAtCursor(c: Config, s: System, step: Step)
    requires Inv(c, s) && VersionInv(s.browser, s.requests) && Enabled(c, s, step)
    requires RecoveriesCurrent(s) && AtCursor(s.browser, s.requests)
    ensures AtCursor(Apply(c, s, step).browser, Apply(c, s, step).requests)
  {
    var s' := Apply(c, s, step);
    StepFrame(c, s, step);
    forall r | r in s'.requests && r.purpose.Recovery?
      ensures r.afterId == s'.browser.lastEventId && r.session == s'.browser.session
    {
      if r in s.requests {
        CursorStays(c, s, step, r);
      } else {
        NewRecovery(c, s, step, r);
        if step.Receive? { ReceivedFrame(s); }
      }
    }
  }

  lemma {:induction false} AlwaysAtCursor(c: Config, steps: seq<Step>)
    requires Run(c, steps).At? && Undisturbed(c, steps)
    ensures var s := Run(c, steps).state; AtCursor(s.browser, s.requests)
  {
    if steps != [] {
      var n := |steps| - 1;
      AlwaysAtCursor(c, steps[..n]);
      UndisturbedIsTimely(c, steps[..n]);
      AlwaysVersions(c, steps[..n]);
      StepAtCursor(c, Run(c, steps[..n]).state, steps[n]);
    }
  }

  /** Without a selection while the request of a reset is in flight, the page that arrives is one of the session shown and
      takes up where the list ends. */
  lemma RecoveryContinues(c: Config, steps: seq<Step>, r: Request)
    requires Run(c, steps).At? && Undisturbed(c, steps) && Enabled(c, Run(c, steps).state, Resume(r)) && r.purpose.Recovery?
    ensures var b := Run(c, steps).state.browser;
      && (forall e :: e in r.page.value ==> e.session == b.session && b.lastEventId < e.id && e !in b.events)
  {
    AlwaysAtCursor(c, steps);
    RunKeeps(c, steps);
    var s := Run(c, steps).state;
    assert RequestInv(s.table, r);
    BelowCursor(c, s);
  }

  /** Timely pages are of the session shown. */
  lemma {:induction false} TimelyIsOwn(c: Config, steps: seq<Step>)
    requires Run(c, steps).At? && Timely(c, steps)
    ensures OwnPages(c, steps) && Foreign(Run(c, steps).state.browser) == {}
  {
    if steps != [] {
      var n := |steps| - 1;
      TimelyIsOwn(c, steps[..n]);
      AlwaysVersions(c, steps[..n]);
    }
    ListIsOwnIff(c, steps);
  }

  lemma FailedGrows(c: Config, s: System, step: Step)
    requires Enabled(c, s, step)
    ensures s.failed <= Apply(c, s, step).failed
  {
    if step.Receive? { ReceivedFrame(s); }
  }

  /** With serial appends a timely step passes only events whose publish failed. */
  lemma SerialPasses(c: Config, s: System, step: Step)
    requires Inv(c, s) && Exact(c, s) && VersionInv(s.browser, s.requests) && Enabled(c, s, step) && TimelyStep(s, step)
    requires if Shows(s.browser, step) then step.request.session == c.session
             else s.browser.session == c.session && Foreign(s.browser) == {}
    ensures Passed(c, s, step) <= s.failed
  {
    if Shows(s.browser, step) {
      SerialSelectionPasses(c, s, step.request);
    } else if Recovers(step) {
      SerialRecoveryPasses(c, s, step.request);
    } else if step.Receive? {
      SerialReceiptPasses(c, s);
    } else if step.Commit? {
      SerialCommitPasses(c, s, step.row);
    } else {
      OtherPasses(c, s, step);
    }
  }

  lemma {:induction false} UnseenFailed(c: Config, steps: seq<Step>)
    requires Serial(c, steps) && Run(c, steps).At? && Timely(c, steps) && Run(c, steps).state.browser.session == c.session
    ensures var s := Run(c, steps).state; Unseen(s.table, s.browser) <= s.failed
  {
    if steps != [] {
      var n := |steps| - 1;
      var s := Run(c, steps[..n]).state;
      StepFrame(c, s, steps[n]);
      if !Shows(s.browser, steps[n]) { UnseenFailed(c, steps[..n]); }
      RunExact(c, steps[..n]);
      AlwaysVersions(c, steps[..n]);
      TimelyIsOwn(c, steps[..n]);
      UnseenGrowth(c, s, steps[n]);
      SerialPasses(c, s, steps[n]);
      FailedGrows(c, s, steps[n]);
    }
  }

  /** With serial appends to the session shown, through any drops, reconnects, resets and selections, if the page
      of a reset is added only under the selection that received the reset: every committed event of the session
      up to the cursor is shown unless its publish failed; if none failed, the list is exactly these events. */
  lemma TimelyIsComplete(c: Config, steps: seq<Step>)
    requires Serial(c, steps) && Run(c, steps).At? && Timely(c, steps) && Run(c, steps).state.browser.session == c.session
    ensures var s := Run(c, steps).state;
      && (forall e :: Row(c, s.table, e) && e.id <= s.browser.lastEventId ==> e in s.browser.events || e in s.failed)
      && ((forall f :: f in s.failed ==> f.session != c.session) ==> Complete(s.table, s.browser))
  {
    UnseenFailed(c, steps);
    TimelyIsOwn(c, steps);
    RunKeeps(c, steps);
    var s := Run(c, steps).state;
    forall e | Row(c, s.table, e) && e.id <= s.browser.lastEventId && e !in s.failed ensures e in s.browser.events {
      assert e !in Unseen(s.table, s.browser);
    }
    CompleteIff(c, s);
  }

  /** The same for a user who makes no selection while the request of a reset is in flight. */
  lemma BrowserIsComplete(c: Config, steps: seq<Step>)
    requires Serial(c, steps) && Run(c, steps).At? && Undisturbed(c, steps) && Run(c, steps).state.browser.session == c.session
    ensures var s := Run(c, steps).state;
      && (forall e :: Row(c, s.table, e) && e.id <= s.browser.lastEventId ==> e in s.browser.events || e in s.failed)
      && ((forall f :: f in s.failed ==> f.session != c.session) ==> Complete(s.table, s.browser))
  {
    UndisturbedIsTimely(c, steps);
    TimelyIsComplete(c, steps);
  }
}
