/** The event log of every run over every interleaving, and exactly when it stops matching the run's status. */
module LifecycleLogs {
  import opened Wrappers
  import opened SessionRows
  import opened Lifecycle
  import opened LifecycleInvariants

  // ---------- the log of one run ----------

  /** Progress of a run's event log; `Bad` is anything an executor alone never writes. */
  datatype Log = Empty | Open | Answered | Closed | Broken | Bad

  function Advance(log: Log, record: Record): Log {
    match (log, record)
    case (Empty, RunStarted) => Open
    case (Open, Agent) => Open
    case (Open, FinalMessage) => Answered
    case (Open, RunFailed) => Broken
    case (Answered, RunCompleted) => Closed
    case _ => Bad
  }

  function LogOf(events: seq<RunEvent>, r: RunId): Log {
    if events == [] then Empty
    else
      var n := |events| - 1;
      if events[n].run == r then Advance(LogOf(events[..n], r), events[n].record) else LogOf(events[..n], r)
  }

  predicate LogFits(status: RunStatus, log: Log) {
    match status
    case Pending => log.Empty?
    case Running => log.Open?
    case Completed => log.Answered? || log.Closed?
    case Failed => log.Broken?
    case Cancelled => log.Empty? || log.Open?
  }

  /** What the phase of an executor says about the log of its run. */
  predicate LogExpected(phase: Phase, log: Log) {
    match phase
    case Working => log.Open?
    case Loaded(_, seen, _, _) => seen.Running? ==> log.Open?
    case Completing => log.Answered?
  }

  ghost predicate LogsOf(runs: seq<Run>, events: seq<RunEvent>, execs: map<ExecId, Exec>, leaks: set<RunId>) {
    && (forall r :: 0 <= r < |runs| ==> LogFits(runs[r].status, LogOf(events, r)))
    && (forall x :: x in execs ==> LogExpected(execs[x].phase, LogOf(events, execs[x].run)))
    && (forall r :: r in leaks ==> LogOf(events, r).Open? || LogOf(events, r).Broken?)
  }

  ghost predicate Logs(s: State) {
    LogsOf(s.runs, s.events, s.execs, s.leaks)
  }

  lemma LogAppend(events: seq<RunEvent>, e: RunEvent, r: RunId)
    ensures LogOf(events + [e], r) == if e.run == r then Advance(LogOf(events, r), e.record) else LogOf(events, r)
  {
    assert (events + [e])[..|events|] == events;
  }

  lemma {:induction false} NoEvents(events: seq<RunEvent>, r: RunId)
    requires forall e :: e in events ==> e.run != r
    ensures LogOf(events, r).Empty?
  {
    if events != [] {
      var n := |events| - 1;
      assert events[n] in events && forall e :: e in events[..n] ==> e in events;
      NoEvents(events[..n], r);
    }
  }

  // ---------- one step ----------

  /** A record appended to the log of run `r`, which keeps every other log as it was. */
  lemma RecordedLogs(runs: seq<Run>, runs': seq<Run>, events: seq<RunEvent>, e: RunEvent,
                     execs: map<ExecId, Exec>, execs': map<ExecId, Exec>, leaks: set<RunId>)
    requires LogsOf(runs, events, execs, leaks) && |runs'| == |runs| && e.run < |runs|
    requires forall i :: 0 <= i < |runs| && i != e.run ==> runs'[i] == runs[i]
    requires LogFits(runs'[e.run].status, Advance(LogOf(events, e.run), e.record))
    requires forall y :: y in execs' && execs'[y].run != e.run ==> y in execs && execs'[y] == execs[y]
    requires forall y :: y in execs' && execs'[y].run == e.run ==>
      LogExpected(execs'[y].phase, Advance(LogOf(events, e.run), e.record))
    requires e.run in leaks ==> Advance(LogOf(events, e.run), e.record).Open? || Advance(LogOf(events, e.run), e.record).Broken?
    ensures LogsOf(runs', events + [e], execs', leaks)
  {
    forall i | 0 <= i < |runs'| ensures LogFits(runs'[i].status, LogOf(events + [e], i)) {
      LogAppend(events, e, i);
      assert LogFits(runs[i].status, LogOf(events, i));
    }
    forall y | y in execs' ensures LogExpected(execs'[y].phase, LogOf(events + [e], execs'[y].run)) {
      LogAppend(events, e, execs'[y].run);
    }
    forall r | r in leaks ensures LogOf(events + [e], r).Open? || LogOf(events + [e], r).Broken? { LogAppend(events, e, r); }
  }

  lemma CreateRunLogs(s: State, key: Option<string>)
    requires Orderly(s) && Logs(s)
    ensures Logs(Apply(s, CreateRun(key)))
  {
    NoEvents(s.events, |s.runs|);
    var s' := Apply(s, CreateRun(key));
    assert forall x :: x in s.execs ==> s.execs[x].run < |s.runs|;
    assert s'.events == s.events && s'.execs == s.execs && s'.leaks == s.leaks;
  }

  lemma CancelLogs(runs: seq<Run>, events: seq<RunEvent>, execs: map<ExecId, Exec>, leaks: set<RunId>)
    requires LogsOf(runs, events, execs, leaks)
    ensures LogsOf(CancelActive(runs), events, execs, leaks)
  {
    forall r | 0 <= r < |runs| ensures LogFits(CancelActive(runs)[r].status, LogOf(events, r)) {
      assert LogFits(runs[r].status, LogOf(events, r));
    }
  }

  lemma BeginLogs(s: State, x: ExecId, r: RunId)
    requires Orderly(s) && Logs(s) && Enabled(s, ExecStart(x, r))
    ensures Logs(Begin(s, x, r))
  {
    if s.runs[r].status.Pending? {
      forall y | y in s.execs ensures s.execs[y].run != r { assert ExecInv(s.runs, s.execs[y]); }
      assert LogFits(s.runs[r].status, LogOf(s.events, r)) && r !in s.leaks;
      RecordedLogs(s.runs, WithStatus(s.runs, r, RunStatus.Running), s.events, RunEvent(r, RunStarted),
                   s.execs, s.execs[x := Exec(r, Working)], s.leaks);
    }
  }

  lemma EmitLogs(s: State, x: ExecId)
    requires Orderly(s) && Logs(s) && Enabled(s, Emit(x))
    ensures Logs(Apply(s, Emit(x)))
  {
    var r := s.execs[x].run;
    assert ExecInv(s.runs, s.execs[x]) && LogExpected(s.execs[x].phase, LogOf(s.events, r));
    assert LogFits(s.runs[r].status, LogOf(s.events, r));
    RecordedLogs(s.runs, s.runs, s.events, RunEvent(r, Agent), s.execs, s.execs, s.leaks);
  }

  lemma AnnounceLogs(s: State, x: ExecId)
    requires Orderly(s) && Logs(s) && Enabled(s, Announce(x))
    ensures Logs(Apply(s, Announce(x)))
  {
    var r := s.execs[x].run;
    assert ExecInv(s.runs, s.execs[x]) && LogExpected(s.execs[x].phase, LogOf(s.events, r));
    assert r !in s.leaks;
    RecordedLogs(s.runs, s.runs, s.events, RunEvent(r, RunCompleted), s.execs, s.execs - {x}, s.leaks);
  }

  lemma ReloadLogs(s: State, x: ExecId, ending: Ending)
    requires Orderly(s) && Logs(s) && Enabled(s, Load(x, ending))
    ensures Logs(Reload(s, x, ending))
  {
    assert ExecInv(s.runs, s.execs[x]);
    assert LogExpected(s.execs[x].phase, LogOf(s.events, s.execs[x].run));
    assert LogFits(s.runs[s.execs[x].run].status, LogOf(s.events, s.execs[x].run));
  }

  lemma FinishLogs(s: State, x: ExecId)
    requires Orderly(s) && Logs(s) && Enabled(s, Finish(x)) && !AfterCompletion(s, Finish(x))
    ensures Logs(Conclude(s, x))
  {
    var r := s.execs[x].run;
    assert ExecInv(s.runs, s.execs[x]) && LogExpected(s.execs[x].phase, LogOf(s.events, r));
    if s.execs[x].phase.ending.Success? {
      assert r !in s.leaks;
      RecordedLogs(s.runs, WithStatus(s.runs, r, RunStatus.Completed), s.events, RunEvent(r, FinalMessage),
                   s.execs, s.execs[x := Exec(r, Completing)], s.leaks);
    } else {
      RecordedLogs(s.runs, WithStatus(s.runs, r, RunStatus.Failed), s.events, RunEvent(r, RunFailed),
                   s.execs, s.execs - {x}, s.leaks);
    }
  }

  lemma DrainLogs(s: State, r: RunId)
    requires Orderly(s) && Logs(s) && r in s.leaks && !s.runs[r].status.Failed?
    ensures Logs(Apply(s, Drain(r)))
  {
    assert LogFits(s.runs[r].status, LogOf(s.events, r));
    forall y | y in s.execs && s.execs[y].run == r ensures LogExpected(s.execs[y].phase, Open) {
      assert LogExpected(s.execs[y].phase, LogOf(s.events, r));
    }
    RecordedLogs(s.runs, s.runs, s.events, RunEvent(r, Agent), s.execs, s.execs, s.leaks);
  }

  lemma QuietLogs(s: State, step: Step)
    requires Logs(s) && Enabled(s, step)
    requires !step.CreateRun? && !step.StopOk? && !step.DeleteOk? && !step.ExecStart? && !step.Emit? && !step.Load?
             && !step.Finish? && !step.Announce? && !step.Drain?
    ensures Logs(Apply(s, step))
  {
    var s' := Apply(s, step);
    assert s'.runs == s.runs && s'.events == s.events && s'.leaks <= s.leaks;
    forall x | x in s'.execs ensures LogExpected(s'.execs[x].phase, LogOf(s'.events, s'.execs[x].run)) {
      assert LogExpected(s.execs[x].phase, LogOf(s.events, s.execs[x].run));
    }
  }

  lemma StepLogs(s: State, step: Step)
    requires Orderly(s) && Logs(s) && Enabled(s, step) && !BreaksLog(s, step)
    ensures Logs(Apply(s, step))
  {
    match step
    case CreateRun(key) => CreateRunLogs(s, key);
    case StopOk(_) => CancelLogs(s.runs, s.events, s.execs, s.leaks);
    case DeleteOk(_) => CancelLogs(s.runs, s.events, s.execs, s.leaks);
    case ExecStart(x, r) => BeginLogs(s, x, r);
    case Emit(x) => EmitLogs(s, x);
    case Load(x, ending) => ReloadLogs(s, x, ending);
    case Finish(x) => FinishLogs(s, x);
    case Announce(x) => AnnounceLogs(s, x);
    case Drain(r) => DrainLogs(s, r);
    case _ => QuietLogs(s, step);
  }

  // ---------- a broken log stays broken ----------

  ghost predicate Spoilt(s: State) {
    exists r :: 0 <= r < |s.runs| && LogOf(s.events, r).Bad?
  }

  lemma SpoiltIsNoLog(s: State)
    requires Spoilt(s)
    ensures !Logs(s)
  {
    var r :| 0 <= r < |s.runs| && LogOf(s.events, r).Bad?;
    assert !LogFits(s.runs[r].status, LogOf(s.events, r));
  }

  /** A step appends at most one event and forgets no run. */
  lemma EventsGrow(s: State, step: Step)
    requires Enabled(s, step)
    ensures var s' := Apply(s, step);
      |s.runs| <= |s'.runs| && (s'.events == s.events || exists e :: s'.events == s.events + [e])
  {
    var s' := Apply(s, step);
    if step.Finish? {
      assert s'.events == s.events + [s'.events[|s.events|]];
    } else if s'.events != s.events {
      assert s'.events == s.events + [s'.events[|s.events|]];
    }
  }

  lemma SpoiltStays(s: State, step: Step)
    requires Spoilt(s) && Enabled(s, step)
    ensures Spoilt(Apply(s, step))
  {
    var s' := Apply(s, step);
    EventsGrow(s, step);
    var r :| 0 <= r < |s.runs| && LogOf(s.events, r).Bad?;
    if s'.events != s.events {
      var e :| s'.events == s.events + [e];
      LogAppend(s.events, e, r);
    }
    assert LogOf(s'.events, r).Bad?;
  }

  lemma BreakSpoils(s: State, step: Step)
    requires Orderly(s) && Logs(s) && Enabled(s, step) && BreaksLog(s, step)
    ensures Spoilt(Apply(s, step))
  {
    var s' := Apply(s, step);
    var r := if step.Finish? then s.execs[step.exec].run else step.run;
    assert LogFits(s.runs[r].status, LogOf(s.events, r));
    if step.Finish? {
      assert ExecInv(s.runs, s.execs[step.exec]);
      LogAppend(s.events, RunEvent(r, RunFailed), r);
    } else {
      LogAppend(s.events, RunEvent(r, Agent), r);
    }
    assert LogOf(s'.events, r).Bad?;
  }

  /** A step keeps the logs of all runs fitting their statuses if and only if it does not end a completed
      run once more and is no append of a worker that outlived a failed run. */
  lemma LogsKeptIff(s: State, step: Step)
    requires Orderly(s) && Logs(s) && Enabled(s, step)
    ensures Logs(Apply(s, step)) <==> !BreaksLog(s, step)
  {
    if BreaksLog(s, step) {
      BreakSpoils(s, step);
      SpoiltIsNoLog(Apply(s, step));
    } else {
      StepLogs(s, step);
    }
  }

  /** Over a whole run the logs fit as long as no step breaks one, and one is broken for good after that. */
  lemma {:induction false} AlwaysLogs(s: State, steps: seq<Step>)
    requires Orderly(s) && Logs(s) && Follow(s, steps).At?
    ensures if Never(BreaksLog, s, steps) then Logs(Follow(s, steps).state) else Spoilt(Follow(s, steps).state)
  {
    if steps != [] {
      var n := |steps| - 1;
      AlwaysLogs(s, steps[..n]);
      AlwaysOrderly(s, steps[..n]);
      var m := Follow(s, steps[..n]).state;
      if !Never(BreaksLog, s, steps[..n]) {
        SpoiltStays(m, steps[n]);
      } else if BreaksLog(m, steps[n]) {
        BreakSpoils(m, steps[n]);
      } else {
        StepLogs(m, steps[n]);
      }
    }
  }
}
