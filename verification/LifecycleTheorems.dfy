/** The guarantees of the session lifecycle over every interleaving, and exactly where they stop. */
module LifecycleTheorems {
  import opened Wrappers
  import opened SessionRows
  import opened Lifecycle
  import opened LifecycleInvariants
  import opened LifecycleLogs
  import opened LifecycleTranscript
  import R = Reconciler

  // ---------- one active run, and the partial unique index ----------

  /** In every reachable state a session has at most one PENDING or RUNNING run. */
  lemma OneActiveRun(id: SessionId, expiresAt: int, steps: seq<Step>)
    requires Follow(Initial(id, expiresAt), steps).At?
    ensures var runs := Follow(Initial(id, expiresAt), steps).state.runs;
      forall i, j :: 0 <= i < |runs| && 0 <= j < |runs| && ActiveRun(runs[i]) && ActiveRun(runs[j]) ==> i == j
  {
    InitialHolds(id, expiresAt);
    AlwaysOrderly(Initial(id, expiresAt), steps);
  }

  /** CREATING means no run at all. */
  predicate CreatingMeansNoRun(s: State) {
    s.session.status.Creating? ==> s.runs == []
  }

  lemma CreatingKept(s: State, step: Step)
    requires Orderly(s) && CreatingMeansNoRun(s) && Enabled(s, step)
    ensures CreatingMeansNoRun(Apply(s, step))
  {
    if step.Reconcile? { ReconcileStatus(s.session, step.candidates, step.now); }
  }

  /** In every reachable state, late finishes and meddling included, a CREATING session has no run. */
  lemma {:induction false} CreatingHasNoRun(id: SessionId, expiresAt: int, steps: seq<Step>)
    requires Follow(Initial(id, expiresAt), steps).At?
    ensures CreatingMeansNoRun(Follow(Initial(id, expiresAt), steps).state)
  {
    if steps != [] {
      var n := |steps| - 1;
      CreatingHasNoRun(id, expiresAt, steps[..n]);
      InitialHolds(id, expiresAt);
      AlwaysOrderly(Initial(id, expiresAt), steps[..n]);
      CreatingKept(Follow(Initial(id, expiresAt), steps[..n]).state, steps[n]);
    }
  }

  /** Without late finishes and meddling READY means no active run, and the partial unique index never rejects
      a submission that passed the READY check. */
  lemma ReadyIsIdle(id: SessionId, expiresAt: int, steps: seq<Step>, key: Option<string>)
    requires Prompt(Initial(id, expiresAt), steps) && Unmeddled(Initial(id, expiresAt), steps)
    requires Follow(Initial(id, expiresAt), steps).At?
    ensures var s := Follow(Initial(id, expiresAt), steps).state;
      && (s.session.status.Ready? ==> NoActiveRun(s.runs))
      && (Submit(s, key).Rejected? ==> key == Some(""))
  {
    InitialHolds(id, expiresAt);
    AlwaysStatus(Initial(id, expiresAt), steps);
  }

  // ---------- messages ----------

  /** Entries with the sequence numbers 1, 2, ... */
  function Number(entries: seq<Entry>): (r: seq<Message>)
    ensures |r| == |entries|
    ensures forall i :: 0 <= i < |r| ==> r[i] == Message(entries[i].run, entries[i].role, i + 1)
  {
    seq(|entries|, i requires 0 <= i < |entries| => Message(entries[i].run, entries[i].role, i + 1))
  }

  lemma NumberedTranscript(runs: seq<Run>, messages: seq<Message>)
    requires Numbered(messages)
    ensures messages == Number(Transcript(runs)) <==> Transcribed(runs, messages)
  {
    var all := Number(Transcript(runs));
    if Transcribed(runs, messages) {
      forall i | 0 <= i < |messages| ensures messages[i] == all[i] {}
    }
  }

  /** The message log is the transcript of the runs, numbered 1 to n: for each run in creation order its question,
      followed by its answer exactly if the run is COMPLETED. It is that if and only if no step ended a completed run
      once more or committed the answer of a run when a newer one had asked. */
  lemma MessagesAreTranscript(id: SessionId, expiresAt: int, steps: seq<Step>)
    requires Follow(Initial(id, expiresAt), steps).At?
    ensures var s := Follow(Initial(id, expiresAt), steps).state;
      s.messages == Number(Transcript(s.runs)) <==> Never(Misplaces, Initial(id, expiresAt), steps)
  {
    InitialHolds(id, expiresAt);
    AlwaysOrderly(Initial(id, expiresAt), steps);
    AlwaysTranscribed(Initial(id, expiresAt), steps);
    var s := Follow(Initial(id, expiresAt), steps).state;
    NumberedTranscript(s.runs, s.messages);
    if !Never(Misplaces, Initial(id, expiresAt), steps) { MisplacedIsNoTranscript(s.runs, s.messages); }
  }

  /** If the reconciler leaves sessions in creation alone, whatever stops and deletes do inside an executor's last
      window, the log is the transcript if and only if no exception followed a completion. */
  lemma UnmeddledTranscript(id: SessionId, expiresAt: int, steps: seq<Step>)
    requires Follow(Initial(id, expiresAt), steps).At? && Unmeddled(Initial(id, expiresAt), steps)
    ensures var s := Follow(Initial(id, expiresAt), steps).state;
      s.messages == Number(Transcript(s.runs)) <==> Never(AfterCompletion, Initial(id, expiresAt), steps)
  {
    InitialHolds(id, expiresAt);
    MessagesAreTranscript(id, expiresAt, steps);
    UnmeddledAnswersInPlace(Initial(id, expiresAt), steps);
  }

  // ---------- the event log of a run ----------

  function Records(events: seq<RunEvent>, r: RunId): seq<Record> {
    if events == [] then []
    else
      var n := |events| - 1;
      Records(events[..n], r) + (if events[n].run == r then [events[n].record] else [])
  }

  /** RUN_STARTED, then agent events only, then `tail`. */
  predicate Shape(rs: seq<Record>, tail: seq<Record>) {
    && |rs| >= 1 + |tail|
    && rs[0].RunStarted?
    && (forall i :: 1 <= i < |rs| - |tail| ==> rs[i].Agent?)
    && rs[|rs| - |tail|..] == tail
  }

  predicate LogShape(rs: seq<Record>, log: Log) {
    match log
    case Empty => rs == []
    case Open => Shape(rs, [])
    case Answered => Shape(rs, [FinalMessage])
    case Closed => Shape(rs, [FinalMessage, RunCompleted])
    case Broken => Shape(rs, [RunFailed])
    case Bad => true
  }

  lemma ShapeAgent(rs: seq<Record>)
    requires Shape(rs, [])
    ensures Shape(rs + [Agent], [])
  {
  }

  lemma ShapeEnds(rs: seq<Record>, last: Record)
    requires Shape(rs, [])
    ensures Shape(rs + [last], [last])
  {
    assert (rs + [last])[|rs|..] == [last];
  }

  lemma ShapeCloses(rs: seq<Record>)
    requires Shape(rs, [FinalMessage])
    ensures Shape(rs + [RunCompleted], [FinalMessage, RunCompleted])
  {
    assert (rs + [RunCompleted])[|rs| - 1..] == rs[|rs| - 1..] + [RunCompleted];
  }

  lemma ShapeAdvances(rs: seq<Record>, log: Log, record: Record)
    requires LogShape(rs, log)
    ensures LogShape(rs + [record], Advance(log, record))
  {
    match (log, record)
    case (Open, Agent) => ShapeAgent(rs);
    case (Open, FinalMessage) => ShapeEnds(rs, FinalMessage);
    case (Open, RunFailed) => ShapeEnds(rs, RunFailed);
    case (Answered, RunCompleted) => ShapeCloses(rs);
    case _ =>
  }

  lemma {:induction false} LogIsShape(events: seq<RunEvent>, r: RunId)
    ensures LogShape(Records(events, r), LogOf(events, r))
  {
    if events != [] {
      var n := |events| - 1;
      LogIsShape(events[..n], r);
      var rs := Records(events[..n], r);
      ShapeAdvances(rs, LogOf(events[..n], r), events[n].record);
      assert rs + [] == rs;
    }
  }

  /** What the event log of a run may be, for each status of the run. */
  predicate LogMatches(status: RunStatus, rs: seq<Record>) {
    match status
    case Pending => rs == []
    case Running => Shape(rs, [])
    case Completed => Shape(rs, [FinalMessage]) || Shape(rs, [FinalMessage, RunCompleted])
    case Failed => Shape(rs, [RunFailed])
    case Cancelled => rs == [] || Shape(rs, [])
  }

  /** The log automaton is exact: it is in a state only for the logs of that shape. */
  lemma {:induction false} ShapeOpen(events: seq<RunEvent>, r: RunId)
    requires Shape(Records(events, r), [])
    ensures LogOf(events, r).Open?
  {
    var n := |events| - 1;
    var rs, before := Records(events, r), Records(events[..n], r);
    if events[n].run != r {
      assert rs == before;
      ShapeOpen(events[..n], r);
    } else {
      assert rs == before + [events[n].record];
      if before == [] {
        NoRecords(events[..n], r);
      } else {
        assert before[0] == rs[0] && forall i :: 1 <= i < |before| ==> before[i] == rs[i];
        ShapeOpen(events[..n], r);
        assert rs[|rs| - 1].Agent?;
      }
    }
  }

  lemma {:induction false} NoRecords(events: seq<RunEvent>, r: RunId)
    requires Records(events, r) == []
    ensures LogOf(events, r).Empty?
  {
    if events != [] { NoRecords(events[..|events| - 1], r); }
  }

  /** A log that ends in one more record had the shape before it. */
  lemma {:induction false} ShapeLast(events: seq<RunEvent>, r: RunId, tail: seq<Record>, record: Record) returns (n: nat)
    requires Shape(Records(events, r), tail + [record])
    ensures n <= |events| && Shape(Records(events[..n], r), tail)
    ensures LogOf(events, r) == Advance(LogOf(events[..n], r), record)
  {
    var m := |events| - 1;
    var rs, before := Records(events, r), Records(events[..m], r);
    if events[m].run != r {
      assert rs == before;
      n := ShapeLast(events[..m], r, tail, record);
      assert events[..m][..n] == events[..n];
    } else {
      n := m;
      assert rs == before + [events[m].record];
      var k := |before| - |tail|;
      assert |rs| - |tail + [record]| == k;
      assert rs[k..] == before[k..] + [events[m].record];
      assert before[k..] == rs[k..][..|tail|] == tail && (tail + [record])[|tail|] == record;
    }
  }

  lemma ShapeIsLog(events: seq<RunEvent>, r: RunId)
    ensures Shape(Records(events, r), [FinalMessage]) ==> LogOf(events, r).Answered?
    ensures Shape(Records(events, r), [FinalMessage, RunCompleted]) ==> LogOf(events, r).Closed?
    ensures Shape(Records(events, r), [RunFailed]) ==> LogOf(events, r).Broken?
  {
    var rs := Records(events, r);
    assert [] + [FinalMessage] == [FinalMessage] && [] + [RunFailed] == [RunFailed];
    if Shape(rs, [FinalMessage]) {
      var n := ShapeLast(events, r, [], FinalMessage);
      ShapeOpen(events[..n], r);
    }
    if Shape(rs, [RunFailed]) {
      var n := ShapeLast(events, r, [], RunFailed);
      ShapeOpen(events[..n], r);
    }
    if Shape(rs, [FinalMessage, RunCompleted]) {
      assert [FinalMessage] + [RunCompleted] == [FinalMessage, RunCompleted];
      var m := ShapeLast(events, r, [FinalMessage], RunCompleted);
      var n := ShapeLast(events[..m], r, [], FinalMessage);
      assert events[..m][..n] == events[..n];
      ShapeOpen(events[..n], r);
    }
  }

  /** The records of a run match its status exactly when the automaton fits it. */
  lemma MatchIsFit(status: RunStatus, events: seq<RunEvent>, r: RunId)
    ensures LogMatches(status, Records(events, r)) <==> LogFits(status, LogOf(events, r))
  {
    LogIsShape(events, r);
    ShapeIsLog(events, r);
    if Records(events, r) == [] { NoRecords(events, r); }
    if Shape(Records(events, r), []) { ShapeOpen(events, r); }
  }

  ghost predicate AllMatch(s: State) {
    forall r :: 0 <= r < |s.runs| ==> LogMatches(s.runs[r].status, Records(s.events, r))
  }

  /** However often and concurrently `execute` is called, and whatever stops and deletes do inside its last window,
      every run's events match its status: nothing, or one RUN_STARTED and agent events, followed by the answer and
      later RUN_COMPLETED exactly if COMPLETED, or by RUN_FAILED exactly if FAILED. They match if and only if no step
      ended a completed run once more or was an append of a worker that outlived a failed run. */
  lemma RunEventsMatchStatus(id: SessionId, expiresAt: int, steps: seq<Step>)
    requires Follow(Initial(id, expiresAt), steps).At?
    ensures AllMatch(Follow(Initial(id, expiresAt), steps).state) <==> Never(BreaksLog, Initial(id, expiresAt), steps)
  {
    InitialHolds(id, expiresAt);
    AlwaysLogs(Initial(id, expiresAt), steps);
    var s := Follow(Initial(id, expiresAt), steps).state;
    forall r | 0 <= r < |s.runs|
      ensures LogMatches(s.runs[r].status, Records(s.events, r)) <==> LogFits(s.runs[r].status, LogOf(s.events, r))
    {
      MatchIsFit(s.runs[r].status, s.events, r);
    }
    if !Never(BreaksLog, Initial(id, expiresAt), steps) {
      var r :| 0 <= r < |s.runs| && LogOf(s.events, r).Bad?;
      assert !LogMatches(s.runs[r].status, Records(s.events, r));
    }
  }

  /** In a log that matches, the final message and the failure tell the status. */
  lemma RecordsTellStatus(status: RunStatus, rs: seq<Record>)
    requires LogMatches(status, rs)
    ensures status.Completed? <==> FinalMessage in rs
    ensures status.Failed? <==> RunFailed in rs
  {
    TailTells(rs, [FinalMessage]);
    TailTells(rs, [FinalMessage, RunCompleted]);
    TailTells(rs, [RunFailed]);
    TailTells(rs, []);
  }

  lemma TailTells(rs: seq<Record>, tail: seq<Record>)
    requires FinalMessage in tail ==> tail[0] == FinalMessage
    ensures Shape(rs, tail) ==> (FinalMessage in rs <==> FinalMessage in tail) && (RunFailed in rs <==> RunFailed in tail)
  {
    if Shape(rs, tail) {
      var m := |rs| - |tail|;
      assert rs == rs[..m] + rs[m..];
      forall x | x in rs[..m] ensures x.RunStarted? || x.Agent? {
        var i :| 0 <= i < m && rs[..m][i] == x;
      }
    }
  }

  // ---------- terminal statuses ----------

  predicate Terminal(status: RunStatus) {
    !status.Pending? && !status.Running?
  }

  /** A terminal run keeps its status at every step, except exactly at a late finish. */
  lemma TerminalIsFinal(s: State, step: Step)
    requires Orderly(s) && Enabled(s, step)
    ensures (forall r :: 0 <= r < |s.runs| && Terminal(s.runs[r].status) ==>
               r < |Apply(s, step).runs| && Apply(s, step).runs[r].status == s.runs[r].status)
            <==> !Late(s, step)
  {
    if step.Finish? {
      var x := step.exec;
      assert ExecInv(s.runs, s.execs[x]);
      assert Apply(s, step).runs[s.execs[x].run].status != s.runs[s.execs[x].run].status || !Late(s, step);
    }
  }

  // ---------- the closed region ----------

  predicate Over(status: Status) {
    status.Stopping? || status.Stopped? || status.Failed? || status.Expired?
  }

  /** No active run, and the session is deleted, or over with no creation in flight. */
  predicate Region(s: State) {
    NoActiveRun(s.runs) && (s.session.deleted || (!s.creating && Over(s.session.status)))
  }

  /** The final commit of a delete always enters the region; that of a stop does unless a creation is in flight. */
  lemma RegionIsEntered(s: State, step: Step)
    requires Tables(s) && Enabled(s, step) && (step.StopOk? || step.DeleteOk?)
    ensures step.DeleteOk? ==> Region(Apply(s, step))
    ensures step.StopOk? ==> (Region(Apply(s, step)) <==> s.session.deleted || !s.creating)
  {
  }

  lemma ReconcileOver(row: SessionRow, candidates: seq<R.Runtime>, now: int)
    ensures var row' := R.ReconcileRow(row, candidates, now);
      row'.deleted == row.deleted && (Over(row.status) ==> Over(row'.status))
  {
  }

  lemma FinishInRegion(s: State, x: ExecId)
    requires Orderly(s) && Region(s) && Enabled(s, Finish(x))
    ensures Late(s, Finish(x)) && Conclude(s, x).runs != s.runs
  {
    var r := s.execs[x].run;
    assert ExecInv(s.runs, s.execs[x]);
    assert Conclude(s, x).runs[r].status != s.runs[r].status;
  }

  lemma QuietInRegion(s: State, step: Step)
    requires Tables(s) && Region(s) && Enabled(s, step)
    requires step.CreateRun? || step.StopOk? || step.DeleteOk? || step.ExecStart?
    ensures Apply(s, step).runs == s.runs && Apply(s, step).messages == s.messages
  {
  }

  lemma OtherInRegion(s: State, step: Step)
    requires Region(s) && Enabled(s, step)
    requires !step.Finish? && !step.CreateRun? && !step.StopOk? && !step.DeleteOk? && !step.ExecStart?
    ensures var s' := Apply(s, step);
      Region(s') && s'.runs == s.runs && s'.messages == s.messages
  {
    if step.Reconcile? { ReconcileOver(s.session, step.candidates, step.now); }
  }

  /** From the region no step leads out, changes a run or adds a message, except exactly a late finish. */
  lemma RegionIsClosed(s: State, step: Step)
    requires Orderly(s) && Region(s) && Enabled(s, step)
    ensures var s' := Apply(s, step);
      (Region(s') && s'.runs == s.runs && s'.messages == s.messages) <==> !Late(s, step)
  {
    if step.Finish? {
      FinishInRegion(s, step.exec);
    } else if step.CreateRun? || step.StopOk? || step.DeleteOk? || step.ExecStart? {
      QuietInRegion(s, step);
    } else {
      OtherInRegion(s, step);
    }
  }

  /** How far a run has come. */
  function Rank(status: RunStatus): nat {
    match status
    case Pending => 0
    case Running => 1
    case Cancelled => 2
    case Completed => 3
    case Failed => 4
  }

  /** No run has gone back. */
  predicate Advanced(runs: seq<Run>, runs': seq<Run>) {
    |runs| <= |runs'| && forall r :: 0 <= r < |runs| ==> Rank(runs[r].status) <= Rank(runs'[r].status)
  }

  lemma FinishAdvances(s: State, x: ExecId)
    requires Orderly(s) && Enabled(s, Finish(x))
    ensures Advanced(s.runs, Conclude(s, x).runs)
    ensures var r := s.execs[x].run; Rank(s.runs[r].status) < Rank(Conclude(s, x).runs[r].status)
  {
    assert ExecInv(s.runs, s.execs[x]);
  }

  lemma StepAdvances(s: State, step: Step)
    requires Orderly(s) && Enabled(s, step)
    ensures Advanced(s.runs, Apply(s, step).runs)
  {
    if step.Finish? { FinishAdvances(s, step.exec); } else { OtherAdvances(s, step); }
  }

  lemma OtherAdvances(s: State, step: Step)
    requires Enabled(s, step) && !step.Finish?
    ensures Advanced(s.runs, Apply(s, step).runs)
  {
  }

  /** A run that has come further never comes back. */
  lemma {:induction false} RunsAdvance(s: State, steps: seq<Step>)
    requires Orderly(s) && Follow(s, steps).At?
    ensures Advanced(s.runs, Follow(s, steps).state.runs)
  {
    if steps != [] {
      var n := |steps| - 1;
      RunsAdvance(s, steps[..n]);
      AlwaysOrderly(s, steps[..n]);
      StepAdvances(Follow(s, steps[..n]).state, steps[n]);
    }
  }

  /** Some run has come further. */
  ghost predicate CameFurther(runs: seq<Run>, runs': seq<Run>) {
    Advanced(runs, runs') && exists r :: 0 <= r < |runs| && Rank(runs[r].status) < Rank(runs'[r].status)
  }

  lemma FurtherAdvances(a: seq<Run>, b: seq<Run>, c: seq<Run>)
    requires Advanced(a, b) && Advanced(b, c) && (CameFurther(a, b) || (a == b && CameFurther(b, c)))
    ensures CameFurther(a, c)
  {
    if CameFurther(a, b) {
      var r :| 0 <= r < |a| && Rank(a[r].status) < Rank(b[r].status);
      assert Rank(a[r].status) < Rank(c[r].status);
    }
  }

  /** Over a run from the region: either no finish was late and nothing has changed, or some run has come further. */
  lemma {:induction false} RegionOrFurther(s: State, steps: seq<Step>)
    requires Orderly(s) && Region(s) && Follow(s, steps).At?
    ensures var t := Follow(s, steps).state;
      && Orderly(t)
      && if Prompt(s, steps) then Region(t) && t.runs == s.runs && t.messages == s.messages else CameFurther(s.runs, t.runs)
  {
    if steps != [] {
      var n := |steps| - 1;
      RegionOrFurther(s, steps[..n]);
      var m := Follow(s, steps[..n]).state;
      StepOrderly(m, steps[n]);
      StepAdvances(m, steps[n]);
      if Prompt(s, steps[..n]) {
        RegionIsClosed(m, steps[n]);
        if Late(m, steps[n]) { FinishAdvances(m, steps[n].exec); }
      } else {
        FurtherAdvances(s.runs, m.runs, Apply(m, steps[n]).runs);
      }
    }
  }

  /** Hence after a stop or a delete nothing comes back: over any continuation the session stays over or
      deleted, no run changes and no message is added, if and only if no finish is late; a late one changes a
      run for good. */
  lemma RegionIsForever(s: State, steps: seq<Step>)
    requires Orderly(s) && Region(s) && Follow(s, steps).At?
    ensures var t := Follow(s, steps).state;
      (Region(t) && t.runs == s.runs && t.messages == s.messages) <==> Prompt(s, steps)
  {
    RegionOrFurther(s, steps);
  }

  // ---------- idempotency keys ----------

  lemma {:induction false} FirstKey(runs: seq<Run>, key: string, r: RunId)
    requires DistinctKeys(runs) && r < |runs| && runs[r].key == Some(key)
    ensures FindKey(runs, key) == Some(r)
  {
    KeyFound(runs, key);
  }

  lemma KeysStay(s: State, step: Step)
    requires Tables(s) && Enabled(s, step)
    ensures var s' := Apply(s, step);
      |s.runs| <= |s'.runs| && forall r :: 0 <= r < |s.runs| ==> s'.runs[r].key == s.runs[r].key
  {
  }

  lemma {:induction false} KeyStays(s: State, steps: seq<Step>, r: RunId)
    requires Orderly(s) && Follow(s, steps).At? && r < |s.runs|
    ensures var t := Follow(s, steps).state; Orderly(t) && r < |t.runs| && t.runs[r].key == s.runs[r].key
  {
    if steps != [] {
      var n := |steps| - 1;
      KeyStays(s, steps[..n], r);
      var m := Follow(s, steps[..n]).state;
      StepOrderly(m, steps[n]);
      KeysStay(m, steps[n]);
    }
  }

  /** Once a submission with a nonempty key has succeeded, every later one with that key is answered with the
      same run, whatever state the session is in, until the session is deleted. */
  lemma SameKeySameRun(s: State, key: string, steps: seq<Step>)
    requires Orderly(s) && key != ""
    requires Submit(s, Some(key)).Created? || Submit(s, Some(key)).Replayed?
    requires Follow(Apply(s, CreateRun(Some(key))), steps).At?
    ensures var t := Follow(Apply(s, CreateRun(Some(key))), steps).state;
      Submit(t, Some(key)) == if t.session.deleted then NotFound else Replayed(Submit(s, Some(key)).run)
  {
    var after := Apply(s, CreateRun(Some(key)));
    var r := Submit(s, Some(key)).run;
    StepOrderly(s, CreateRun(Some(key)));
    KeyFound(s.runs, key);
    assert r < |after.runs| && after.runs[r].key == Some(key);
    KeyStays(after, steps, r);
    FirstKey(Follow(after, steps).state.runs, key, r);
  }

  function CountAsked(messages: seq<Message>, r: RunId): nat {
    if messages == [] then 0
    else
      var n := |messages| - 1;
      CountAsked(messages[..n], r) + (if messages[n].role.User? && messages[n].run == r then 1 else 0)
  }

  function Occurrences(ids: seq<RunId>, r: RunId): nat {
    multiset(ids)[r]
  }

  lemma {:induction false} CountIsOccurrences(messages: seq<Message>, r: RunId)
    ensures CountAsked(messages, r) == Occurrences(Asked(messages), r)
  {
    if messages != [] {
      var n := |messages| - 1;
      CountIsOccurrences(messages[..n], r);
      var tail := if messages[n].role.User? then [messages[n].run] else [];
      assert multiset(Asked(messages[..n]) + tail) == multiset(Asked(messages[..n])) + multiset(tail);
    }
  }

  lemma {:induction false} OnceEach(ids: seq<RunId>, r: RunId)
    requires forall i :: 0 <= i < |ids| ==> ids[i] == i
    ensures Occurrences(ids, r) == if r < |ids| then 1 else 0
  {
    if ids != [] {
      var n := |ids| - 1;
      OnceEach(ids[..n], r);
      assert ids == ids[..n] + [ids[n]];
    }
  }

  /** In every reachable state a key names at most one run row, and every run row has exactly one USER message. */
  lemma OneRowOneMessage(id: SessionId, expiresAt: int, steps: seq<Step>)
    requires Follow(Initial(id, expiresAt), steps).At?
    ensures var s := Follow(Initial(id, expiresAt), steps).state;
      && (forall i, j :: 0 <= i < |s.runs| && 0 <= j < |s.runs| && s.runs[i].key.Some? && s.runs[i].key == s.runs[j].key
            ==> i == j)
      && (forall r :: 0 <= r < |s.runs| ==> CountAsked(s.messages, r) == 1)
      && (forall i :: 0 <= i < |s.messages| ==> s.messages[i].sequence == i + 1)
  {
    InitialHolds(id, expiresAt);
    AlwaysOrderly(Initial(id, expiresAt), steps);
    var s := Follow(Initial(id, expiresAt), steps).state;
    forall r | 0 <= r < |s.runs| ensures CountAsked(s.messages, r) == 1 {
      CountIsOccurrences(s.messages, r);
      OnceEach(Asked(s.messages), r);
    }
  }

  // ---------- exactly when READY stops meaning idle ----------

  predicate ReadyMeansIdle(s: State) {
    s.session.status.Ready? ==> NoActiveRun(s.runs)
  }

  /** A creation that returns while a run is active, or a late finish beside an active run. */
  predicate BreaksReady(s: State, step: Step)
    requires Enabled(s, step)
  {
    !NoActiveRun(s.runs) &&
    (step.CreateOk? || (Late(s, step) && !s.execs[step.exec].phase.row.status.Ready?))
  }

  lemma FinishReady(s: State, x: ExecId)
    requires Orderly(s) && ReadyMeansIdle(s) && Enabled(s, Finish(x))
    ensures ReadyMeansIdle(Conclude(s, x)) <==> !BreaksReady(s, Finish(x))
  {
    var r, s' := s.execs[x].run, Conclude(s, x);
    if Late(s, Finish(x)) {
      assert forall i :: 0 <= i < |s.runs| ==> (ActiveRun(s'.runs[i]) <==> ActiveRun(s.runs[i]));
    } else {
      assert forall i :: 0 <= i < |s.runs| && i != r ==> !ActiveRun(s.runs[i]);
      assert NoActiveRun(s'.runs);
    }
  }

  lemma SubmitReady(s: State, step: Step)
    requires ReadyMeansIdle(s) && Enabled(s, step) && (step.CreateRun? || step.ExecStart?)
    ensures ReadyMeansIdle(Apply(s, step))
  {
    if step.ExecStart? && s.runs[step.run].status.Pending? { assert ActiveRun(s.runs[step.run]); }
  }

  lemma ReconcileReady(s: State, step: Step)
    requires ReadyMeansIdle(s) && CreatingMeansNoRun(s) && Enabled(s, step) && step.Reconcile?
    ensures ReadyMeansIdle(Apply(s, step))
  {
    ReconcileStatus(s.session, step.candidates, step.now);
  }

  lemma CreateReady(s: State, step: Step)
    requires ReadyMeansIdle(s) && Enabled(s, step) && step.CreateOk?
    ensures ReadyMeansIdle(Apply(s, step)) <==> NoActiveRun(s.runs)
  {
    assert Apply(s, step).session.status.Ready? && Apply(s, step).runs == s.runs;
  }

  lemma CancelReady(s: State, step: Step)
    requires Enabled(s, step) && (step.StopOk? || step.DeleteOk?)
    ensures ReadyMeansIdle(Apply(s, step))
  {
    assert NoActiveRun(CancelActive(s.runs));
  }

  lemma OtherReady(s: State, step: Step)
    requires Tables(s) && ReadyMeansIdle(s) && Enabled(s, step)
    requires !step.Finish? && !step.Reconcile? && !step.CreateRun? && !step.ExecStart? && !step.CreateOk?
    requires !step.StopOk? && !step.DeleteOk?
    ensures ReadyMeansIdle(Apply(s, step))
  {
    assert Apply(s, step).runs == s.runs;
    assert Apply(s, step).session.status == s.session.status || !Apply(s, step).session.status.Ready?;
  }

  /** From a state in which READY means idle, the exact steps after which it does not. */
  lemma ReadyBreaksExactly(s: State, step: Step)
    requires Orderly(s) && Enabled(s, step) && ReadyMeansIdle(s) && CreatingMeansNoRun(s)
    ensures ReadyMeansIdle(Apply(s, step)) <==> !BreaksReady(s, step)
  {
    if step.Finish? {
      FinishReady(s, step.exec);
    } else if step.Reconcile? {
      ReconcileReady(s, step);
    } else if step.CreateRun? || step.ExecStart? {
      SubmitReady(s, step);
    } else if step.CreateOk? {
      CreateReady(s, step);
    } else if step.StopOk? || step.DeleteOk? {
      CancelReady(s, step);
    } else {
      OtherReady(s, step);
    }
  }

  // ---------- the failures, on concrete runs ----------

  lemma Extend(s: State, steps: seq<Step>, step: Step)
    requires Follow(s, steps).At? && Enabled(Follow(s, steps).state, step)
    ensures Follow(s, steps + [step]) == At(Apply(Follow(s, steps).state, step))
  {
    assert (steps + [step])[..|steps|] == steps;
  }

  const START: State := Initial("s", 100)
  const READY: State := START.(creating := false, session := SessionRow("s", Ready, Some("rt"), 2, 100, false))
  const WORKING: State :=
    READY.(session := SessionRow("s", Status.Running, Some("rt"), 3, 100, false),
           runs := [Run(RunStatus.Running, None)], messages := [Message(0, User, 1)],
           events := [RunEvent(0, RunStarted)], execs := map[0 := Exec(0, Working)])

  /** A session is created, a run submitted and its executor started. */
  lemma AtWork() returns (steps: seq<Step>)
    ensures Follow(START, steps) == At(WORKING)
    ensures forall i :: 0 <= i < |steps| ==> !steps[i].Finish? && !steps[i].Reconcile?
  {
    steps := [];
    Extend(START, steps, CreateOk("rt")); steps := steps + [CreateOk("rt")];
    assert Follow(START, steps) == At(READY);
    Extend(START, steps, CreateRun(None)); steps := steps + [CreateRun(None)];
    var submitted := READY.(session := WORKING.session, runs := [Run(Pending, None)], messages := [Message(0, User, 1)]);
    assert Apply(READY, CreateRun(None)) == submitted by {
      assert [] + [Run(Pending, None)] == [Run(Pending, None)] && [] + [Message(0, User, 1)] == [Message(0, User, 1)];
    }
    Extend(START, steps, ExecStart(0, 0)); steps := steps + [ExecStart(0, 0)];
    assert Begin(submitted, 0, 0) == WORKING by {
      assert WithStatus(submitted.runs, 0, RunStatus.Running) == WORKING.runs;
      assert [] + [RunEvent(0, RunStarted)] == [RunEvent(0, RunStarted)];
    }
  }

  /** One more step of a run from START, between two known states. */
  lemma Then(steps: seq<Step>, s: State, step: Step, t: State)
    requires Follow(START, steps) == At(s) && Enabled(s, step) && Apply(s, step) == t
    ensures Follow(START, steps + [step]) == At(t)
  {
    Extend(START, steps, step);
  }

  const READING: State := WORKING.(execs := map[0 := Exec(0, Loaded(Success, RunStatus.Running, WORKING.session, None))])
  const LOADED: State := WORKING.(execs := map[0 := Exec(0, Loaded(Success, RunStatus.Running, WORKING.session, Some(2)))])
  const HALTING: SessionRow := SessionRow("s", Stopping, Some("rt"), 4, 100, false)
  const STOPPING: State := LOADED.(session := HALTING, stops := multiset{HALTING})
  const STOPPED: State :=
    LOADED.(session := SessionRow("s", Stopped, Some("rt"), 5, 100, false), runs := [Run(Cancelled, None)])

  lemma ReadsAndNumbers()
    ensures Apply(WORKING, Load(0, Success)) == READING && Apply(READING, NumberAnswer(0)) == LOADED
  {
    LargestIsLength(READING.messages);
  }

  /** The executor has re-read its rows and numbered its answer. */
  lemma AnswerNumbered() returns (steps: seq<Step>)
    ensures Follow(START, steps) == At(LOADED)
    ensures forall i :: 0 <= i < |steps| ==> !steps[i].Finish? && !steps[i].Reconcile?
  {
    steps := AtWork();
    ReadsAndNumbers();
    Then(steps, WORKING, Load(0, Success), READING); steps := steps + [Load(0, Success)];
    Then(steps, READING, NumberAnswer(0), LOADED); steps := steps + [NumberAnswer(0)];
  }

  lemma StopsWhileLoaded()
    ensures Apply(LOADED, StopBegin) == STOPPING
    ensures Apply(STOPPING, StopOk(HALTING)) == STOPPED
  {
    StopsLoaded();
    StopCommits();
  }

  lemma StopsLoaded()
    ensures Apply(LOADED, StopBegin) == STOPPING
  {
  }

  lemma StopCommits()
    ensures Apply(STOPPING, StopOk(HALTING)) == STOPPED
  {
    assert CancelActive(STOPPING.runs) == STOPPED.runs;
    assert STOPPING.stops - multiset{HALTING} == multiset{};
  }

  /** The session is stopped in the executor's last window, which cancels the run. */
  lemma StoppedWhileFinishing() returns (steps: seq<Step>)
    ensures Follow(START, steps) == At(STOPPED) && Region(STOPPED)
  {
    steps := AnswerNumbered();
    StopsWhileLoaded();
    Then(steps, LOADED, StopBegin, STOPPING); steps := steps + [StopBegin];
    Then(steps, STOPPING, StopOk(HALTING), STOPPED); steps := steps + [StopOk(HALTING)];
  }

  /** A late finish reopens a stopped session: it is READY again, its cancelled run COMPLETED and answered. */
  lemma LateFinishReopens() returns (steps: seq<Step>)
    ensures Follow(START, steps).At?
    ensures var s := Follow(START, steps).state;
      s.session.status.Ready? && s.runs == [Run(RunStatus.Completed, None)] && |s.messages| == 2
  {
    steps := StoppedWhileFinishing();
    Extend(START, steps, Finish(0)); steps := steps + [Finish(0)];
    assert WithStatus(STOPPED.runs, 0, RunStatus.Completed) == [Run(RunStatus.Completed, None)];
  }

  const DONE: State :=
    WORKING.(session := SessionRow("s", Ready, Some("rt"), 4, 100, false), runs := [Run(RunStatus.Completed, None)],
             messages := [Message(0, User, 1), Message(0, Assistant, 2)],
             events := [RunEvent(0, RunStarted), RunEvent(0, FinalMessage)], execs := map[0 := Exec(0, Completing)])
  const AGAIN: State := DONE.(execs := map[0 := Exec(0, Loaded(Failure, RunStatus.Completed, DONE.session, None))])

  lemma CompletesThenFails()
    ensures Enabled(LOADED, Finish(0)) && Apply(LOADED, Finish(0)) == DONE && Apply(DONE, Load(0, Failure)) == AGAIN
  {
    assert WithStatus(LOADED.runs, 0, RunStatus.Completed) == DONE.runs;
    assert LOADED.messages + [Message(0, Assistant, 2)] == DONE.messages;
    assert LOADED.events + [RunEvent(0, FinalMessage)] == DONE.events;
  }

  lemma FailsAgain()
    ensures var s := Apply(AGAIN, Finish(0));
      && s.runs == [Run(RunStatus.Failed, None)] && s.messages == AGAIN.messages
      && s.events == [RunEvent(0, RunStarted), RunEvent(0, FinalMessage), RunEvent(0, RunFailed)]
  {
    assert WithStatus(AGAIN.runs, 0, RunStatus.Failed) == [Run(RunStatus.Failed, None)];
  }

  /** An exception after the commit of COMPLETED turns the run FAILED, with its answer already in the log. */
  lemma ErrorAfterCompletion() returns (steps: seq<Step>)
    ensures Follow(START, steps).At?
    ensures var s := Follow(START, steps).state;
      && s.runs == [Run(RunStatus.Failed, None)] && |s.messages| == 2
      && s.events == [RunEvent(0, RunStarted), RunEvent(0, FinalMessage), RunEvent(0, RunFailed)]
  {
    steps := AnswerNumbered();
    CompletesThenFails();
    Then(steps, LOADED, Finish(0), DONE); steps := steps + [Finish(0)];
    Then(steps, DONE, Load(0, Failure), AGAIN); steps := steps + [Load(0, Failure)];
    Extend(START, steps, Finish(0)); steps := steps + [Finish(0)];
    FailsAgain();
  }

  const OVERFLOWN: State :=
    WORKING.(execs := map[0 := Exec(0, Loaded(Overflow, RunStatus.Running, WORKING.session, None))], leaks := {0})
  const FAILED: State :=
    WORKING.(session := SessionRow("s", Ready, Some("rt"), 4, 100, false), runs := [Run(RunStatus.Failed, None)],
             events := [RunEvent(0, RunStarted), RunEvent(0, RunFailed)], execs := map[], leaks := {0})

  lemma OverflowFails()
    ensures Apply(WORKING, Load(0, Overflow)) == OVERFLOWN && Apply(OVERFLOWN, Finish(0)) == FAILED
  {
    assert WithStatus(OVERFLOWN.runs, 0, RunStatus.Failed) == FAILED.runs;
    assert OVERFLOWN.events + [RunEvent(0, RunFailed)] == FAILED.events;
    assert OVERFLOWN.execs - {0} == map[];
  }

  /** A callback overflow fails the run and leaves its worker alive, which then appends after RUN_FAILED. */
  lemma AgentEventAfterFailure() returns (steps: seq<Step>)
    ensures Follow(START, steps).At?
    ensures var s := Follow(START, steps).state;
      && s.runs == [Run(RunStatus.Failed, None)] && s.execs == map[]
      && s.events == [RunEvent(0, RunStarted), RunEvent(0, RunFailed), RunEvent(0, Agent)]
  {
    steps := AtWork();
    OverflowFails();
    Then(steps, WORKING, Load(0, Overflow), OVERFLOWN); steps := steps + [Load(0, Overflow)];
    Then(steps, OVERFLOWN, Finish(0), FAILED); steps := steps + [Finish(0)];
    Extend(START, steps, Drain(0)); steps := steps + [Drain(0)];
    assert FAILED.events + [RunEvent(0, Agent)] == [RunEvent(0, RunStarted), RunEvent(0, RunFailed), RunEvent(0, Agent)];
  }

  lemma {:induction false} PromptWithoutFinish(s: State, steps: seq<Step>)
    requires forall i :: 0 <= i < |steps| ==> !steps[i].Finish?
    ensures Prompt(s, steps)
  {
    if steps != [] { PromptWithoutFinish(s, steps[..|steps| - 1]); }
  }

  const RUNTIME: R.Runtime := R.Runtime("rt", "s", R.RUNNING)
  const MEDDLED: State := START.(session := SessionRow("s", Ready, Some("rt"), 3, 100, false))
  const BUSY: State :=
    MEDDLED.(session := SessionRow("s", Status.Running, Some("rt"), 4, 100, false), runs := [Run(Pending, None)],
             messages := [Message(0, User, 1)])
  const BROKEN: State :=
    BUSY.(creating := false, session := SessionRow("s", Ready, Some("rt"), 2, 100, false))

  lemma ReadyTooEarly()
    ensures Apply(START, Reconcile([RUNTIME], 0)) == MEDDLED
  {
    assert R.SelectRuntime(None, [RUNTIME]) == Some(RUNTIME);
  }

  lemma BusyTooEarly()
    ensures Apply(MEDDLED, CreateRun(None)) == BUSY && Apply(BUSY, CreateOk("rt")) == BROKEN
  {
    assert [] + [Run(Pending, None)] == BUSY.runs && [] + [Message(0, User, 1)] == BUSY.messages;
    assert Submit(MEDDLED, None).Created?;
  }

  /** The reconciler makes a session READY while its creation is in flight; the creation then writes READY
      over RUNNING, and the next submission passes the READY check only to hit the partial unique index. */
  lemma MeddlingBreaksReady() returns (steps: seq<Step>)
    ensures Follow(START, steps) == At(BROKEN) && Prompt(START, steps)
    ensures BROKEN.session.status.Ready? && !NoActiveRun(BROKEN.runs) && Submit(BROKEN, None).Rejected?
  {
    ReadyTooEarly();
    BusyTooEarly();
    steps := [];
    Then(steps, START, Reconcile([RUNTIME], 0), MEDDLED); steps := steps + [Reconcile([RUNTIME], 0)];
    Then(steps, MEDDLED, CreateRun(None), BUSY); steps := steps + [CreateRun(None)];
    Then(steps, BUSY, CreateOk("rt"), BROKEN); steps := steps + [CreateOk("rt")];
    PromptWithoutFinish(START, steps);
    assert ActiveRun(BROKEN.runs[0]);
  }

  const EAGER: State :=
    BUSY.(runs := [Run(RunStatus.Running, None)], events := [RunEvent(0, RunStarted)], execs := map[0 := Exec(0, Working)])
  const OLD: map<ExecId, Exec> := map[0 := Exec(0, Loaded(Success, RunStatus.Running, BUSY.session, None))]
  const HALTED: SessionRow := SessionRow("s", Stopping, Some("rt"), 5, 100, false)
  const WAITING: State := EAGER.(execs := OLD)
  const ENDING: State := WAITING.(session := HALTED, stops := multiset{HALTED})
  const ENDED: State :=
    WAITING.(session := SessionRow("s", Stopped, Some("rt"), 6, 100, false), runs := [Run(Cancelled, None)])
  const REVIVED: State := ENDED.(creating := false, session := SessionRow("s", Ready, Some("rt"), 2, 100, false))
  const SECOND: State :=
    REVIVED.(session := SessionRow("s", Status.Running, Some("rt"), 3, 100, false),
             runs := [Run(Cancelled, None), Run(Pending, None)], messages := [Message(0, User, 1), Message(1, User, 2)])
  const NUMBERED: State :=
    SECOND.(execs := map[0 := Exec(0, Loaded(Success, RunStatus.Running, BUSY.session, Some(3)))])

  lemma StoppedWhileWaiting()
    ensures Apply(BUSY, ExecStart(0, 0)) == EAGER && Apply(EAGER, Load(0, Success)) == WAITING
    ensures Apply(WAITING, StopBegin) == ENDING && Apply(ENDING, StopOk(HALTED)) == ENDED
  {
    assert WithStatus(BUSY.runs, 0, RunStatus.Running) == EAGER.runs;
    assert [] + [RunEvent(0, RunStarted)] == EAGER.events;
    assert CancelActive(ENDING.runs) == ENDED.runs;
  }

  lemma RevivedForAnother()
    ensures Apply(ENDED, CreateOk("rt")) == REVIVED && Apply(REVIVED, CreateRun(None)) == SECOND
    ensures Apply(SECOND, NumberAnswer(0)) == NUMBERED
  {
    SecondAsks();
    LargestIsLength(SECOND.messages);
  }

  lemma SecondAsks()
    ensures Apply(REVIVED, CreateRun(None)) == SECOND
  {
    LargestIsLength(REVIVED.messages);
    assert REVIVED.runs + [Run(Pending, None)] == SECOND.runs;
    assert REVIVED.messages + [Message(1, User, 2)] == SECOND.messages;
    assert Submit(REVIVED, None).Created?;
  }

  lemma StartedInCreation() returns (steps: seq<Step>)
    ensures Follow(START, steps) == At(EAGER) && forall i :: 0 <= i < |steps| ==> !steps[i].Finish?
  {
    ReadyTooEarly();
    BusyTooEarly();
    StoppedWhileWaiting();
    steps := [];
    Then(steps, START, Reconcile([RUNTIME], 0), MEDDLED); steps := steps + [Reconcile([RUNTIME], 0)];
    Then(steps, MEDDLED, CreateRun(None), BUSY); steps := steps + [CreateRun(None)];
    Then(steps, BUSY, ExecStart(0, 0), EAGER); steps := steps + [ExecStart(0, 0)];
  }

  lemma StoppedInCreation() returns (steps: seq<Step>)
    ensures Follow(START, steps) == At(ENDED) && forall i :: 0 <= i < |steps| ==> !steps[i].Finish?
  {
    steps := StartedInCreation();
    StoppedWhileWaiting();
    Then(steps, EAGER, Load(0, Success), WAITING); steps := steps + [Load(0, Success)];
    Then(steps, WAITING, StopBegin, ENDING); steps := steps + [StopBegin];
    Then(steps, ENDING, StopOk(HALTED), ENDED); steps := steps + [StopOk(HALTED)];
  }

  lemma AnotherAsks(before: seq<Step>) returns (steps: seq<Step>)
    requires Follow(START, before) == At(ENDED) && forall i :: 0 <= i < |before| ==> !before[i].Finish?
    ensures Follow(START, steps) == At(NUMBERED) && forall i :: 0 <= i < |steps| ==> !steps[i].Finish?
  {
    RevivedForAnother();
    Then(before, ENDED, CreateOk("rt"), REVIVED); steps := before + [CreateOk("rt")];
    Then(steps, REVIVED, CreateRun(None), SECOND); steps := steps + [CreateRun(None)];
    Then(steps, SECOND, NumberAnswer(0), NUMBERED); steps := steps + [NumberAnswer(0)];
  }

  /** With a meddling reconciler a stopped run can be answered after the next run has asked. */
  lemma OldAnswerOutOfPlace() returns (steps: seq<Step>)
    ensures Follow(START, steps).At? && Never(AfterCompletion, START, steps)
    ensures Follow(START, steps).state.messages == [Message(0, User, 1), Message(1, User, 2), Message(0, Assistant, 3)]
  {
    steps := StoppedInCreation();
    steps := AnotherAsks(steps);
    NoFinishYet(steps);
    steps := LastFinish(steps);
  }

  lemma NoFinishYet(steps: seq<Step>)
    requires forall i :: 0 <= i < |steps| ==> !steps[i].Finish?
    ensures Never(AfterCompletion, START, steps)
  {
    if steps != [] { NoFinishYet(steps[..|steps| - 1]); }
  }

  lemma LastFinish(steps: seq<Step>) returns (more: seq<Step>)
    requires Follow(START, steps) == At(NUMBERED) && Never(AfterCompletion, START, steps)
    ensures Follow(START, more).At? && Never(AfterCompletion, START, more)
    ensures Follow(START, more).state.messages == [Message(0, User, 1), Message(1, User, 2), Message(0, Assistant, 3)]
  {
    assert Enabled(NUMBERED, Finish(0));
    Extend(START, steps, Finish(0));
    more := steps + [Finish(0)];
    assert more[..|steps|] == steps && !AfterCompletion(NUMBERED, Finish(0));
  }
}
