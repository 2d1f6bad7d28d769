/** Who appends to the event log of a session: when a run is started, and when two executors can append beside
    each other. */
module LifecycleExecutors {
  import opened Wrappers
  import opened SessionRows
  import opened Lifecycle
  import opened LifecycleInvariants
  import opened LifecycleTheorems

  // ---------- a run is started at most once (no hypothesis) ----------

  function Starts(events: seq<RunEvent>, r: RunId): nat {
    if events == [] then 0
    else
      var n := |events| - 1;
      Starts(events[..n], r) + if events[n].run == r && events[n].record.RunStarted? then 1 else 0
  }

  lemma StartsAppend(events: seq<RunEvent>, e: RunEvent, r: RunId)
    ensures Starts(events + [e], r) == Starts(events, r) + if e.run == r && e.record.RunStarted? then 1 else 0
  {
    assert (events + [e])[..|events|] == events;
  }

  lemma {:induction false} NeverMentioned(events: seq<RunEvent>, r: RunId)
    requires forall e :: e in events ==> e.run != r
    ensures Starts(events, r) == 0
  {
    if events != [] {
      var n := |events| - 1;
      assert events[n] in events;
      NeverMentioned(events[..n], r);
    }
  }

  /** How often a run of this status has been started. */
  predicate StartsFit(status: RunStatus, starts: nat) {
    if status.Pending? then starts == 0 else if status.Cancelled? then starts <= 1 else starts == 1
  }

  ghost predicate StartsOf(runs: seq<Run>, events: seq<RunEvent>, execs: map<ExecId, Exec>) {
    && (forall r :: 0 <= r < |runs| ==> StartsFit(runs[r].status, Starts(events, r)))
    && (forall x :: x in execs ==> Starts(events, execs[x].run) == 1)
  }

  ghost predicate StartedOnce(s: State) {
    StartsOf(s.runs, s.events, s.execs)
  }

  /** An append that is no RUN_STARTED. */
  lemma OtherRecord(runs: seq<Run>, events: seq<RunEvent>, execs: map<ExecId, Exec>, e: RunEvent)
    requires StartsOf(runs, events, execs) && !e.record.RunStarted?
    ensures StartsOf(runs, events + [e], execs)
  {
    forall r: RunId ensures Starts(events + [e], r) == Starts(events, r) { StartsAppend(events, e, r); }
  }

  lemma FewerStarted(runs: seq<Run>, events: seq<RunEvent>, execs: map<ExecId, Exec>, fewer: map<ExecId, Exec>)
    requires StartsOf(runs, events, execs)
    requires forall x :: x in fewer ==> exists y :: y in execs && execs[y].run == fewer[x].run
    ensures StartsOf(runs, events, fewer)
  {
  }

  lemma StatusStarted(runs: seq<Run>, events: seq<RunEvent>, execs: map<ExecId, Exec>, r: RunId, status: RunStatus)
    requires StartsOf(runs, events, execs) && r < |runs| && Starts(events, r) == 1
    requires status.Completed? || status.Failed?
    ensures StartsOf(WithStatus(runs, r, status), events, execs)
  {
  }

  lemma FirstStart(runs: seq<Run>, events: seq<RunEvent>, execs: map<ExecId, Exec>, x: ExecId, r: RunId)
    requires StartsOf(runs, events, execs) && r < |runs| && runs[r].status.Pending?
    requires forall y :: y in execs ==> execs[y].run != r
    ensures StartsOf(WithStatus(runs, r, RunStatus.Running), events + [RunEvent(r, RunStarted)], execs[x := Exec(r, Working)])
  {
    var e := RunEvent(r, RunStarted);
    forall q: RunId ensures Starts(events + [e], q) == Starts(events, q) + if q == r then 1 else 0 {
      StartsAppend(events, e, q);
    }
    assert StartsFit(runs[r].status, Starts(events, r));
  }

  lemma BeginStarts(s: State, x: ExecId, r: RunId)
    requires Orderly(s) && StartedOnce(s) && Enabled(s, ExecStart(x, r))
    ensures StartedOnce(Begin(s, x, r))
  {
    if s.runs[r].status.Pending? && !s.session.deleted {
      forall y | y in s.execs ensures s.execs[y].run != r { assert ExecInv(s.runs, s.execs[y]); }
      FirstStart(s.runs, s.events, s.execs, x, r);
    }
  }

  lemma FinishStarts(s: State, x: ExecId)
    requires StartedOnce(s) && Enabled(s, Finish(x))
    ensures StartedOnce(Conclude(s, x))
  {
    var r, s' := s.execs[x].run, Conclude(s, x);
    var e := s'.events[|s.events|];
    OtherRecord(s.runs, s.events, s.execs, e);
    StartsAppend(s.events, e, r);
    StatusStarted(s.runs, s'.events, s.execs, r, s'.runs[r].status);
    FewerStarted(s'.runs, s'.events, s.execs, s'.execs);
  }

  lemma CreateStarts(s: State, key: Option<string>)
    requires Tables(s) && StartedOnce(s)
    ensures StartedOnce(Apply(s, CreateRun(key)))
  {
    NeverMentioned(s.events, |s.runs|);
  }

  lemma EmitStarts(s: State, step: Step)
    requires StartedOnce(s) && Enabled(s, step) && (step.Emit? || step.Announce? || step.Drain?)
    ensures StartedOnce(Apply(s, step))
  {
    var s' := Apply(s, step);
    OtherRecord(s.runs, s.events, s.execs, s'.events[|s.events|]);
    FewerStarted(s.runs, s'.events, s.execs, s'.execs);
  }

  lemma QuietStarts(s: State, step: Step)
    requires StartedOnce(s) && Enabled(s, step)
    requires !step.ExecStart? && !step.Finish? && !step.CreateRun? && !step.Emit? && !step.Announce? && !step.Drain?
    requires !step.StopOk? && !step.DeleteOk?
    ensures StartedOnce(Apply(s, step))
  {
    var s' := Apply(s, step);
    assert s'.runs == s.runs && s'.events == s.events;
    assert forall x :: x in s'.execs ==> x in s.execs && s'.execs[x].run == s.execs[x].run;
    FewerStarted(s.runs, s.events, s.execs, s'.execs);
  }

  lemma CancelStarts(runs: seq<Run>, events: seq<RunEvent>, execs: map<ExecId, Exec>)
    requires StartsOf(runs, events, execs)
    ensures StartsOf(CancelActive(runs), events, execs)
  {
    forall r | 0 <= r < |runs| ensures StartsFit(CancelActive(runs)[r].status, Starts(events, r)) {
      assert StartsFit(runs[r].status, Starts(events, r));
    }
  }

  lemma StepStarts(s: State, step: Step)
    requires Orderly(s) && StartedOnce(s) && Enabled(s, step)
    ensures StartedOnce(Apply(s, step))
  {
    if step.ExecStart? {
      BeginStarts(s, step.exec, step.run);
    } else if step.Finish? {
      FinishStarts(s, step.exec);
    } else if step.CreateRun? {
      CreateStarts(s, step.key);
    } else if step.Emit? || step.Announce? || step.Drain? {
      EmitStarts(s, step);
    } else if step.StopOk? || step.DeleteOk? {
      CancelStarts(s.runs, s.events, s.execs);
    } else {
      QuietStarts(s, step);
    }
  }

  /** In every reachable state, however often `execute` is called and whatever goes wrong: a run has one
      RUN_STARTED if it is RUNNING, COMPLETED or FAILED, none if it is PENDING and at most one if it is CANCELLED. */
  lemma {:induction false} StartedAtMostOnce(id: SessionId, expiresAt: int, steps: seq<Step>)
    requires Follow(Initial(id, expiresAt), steps).At?
    ensures StartedOnce(Follow(Initial(id, expiresAt), steps).state)
  {
    if steps != [] {
      var n := |steps| - 1;
      StartedAtMostOnce(id, expiresAt, steps[..n]);
      InitialHolds(id, expiresAt);
      AlwaysOrderly(Initial(id, expiresAt), steps[..n]);
      StepStarts(Follow(Initial(id, expiresAt), steps[..n]).state, steps[n]);
    }
  }

  // ---------- executors that append beside each other ----------

  /** An executor that has still to end its run: it emits, or ends the run with a record. */
  predicate Busy(exec: Exec) {
    exec.phase.Working? || (exec.phase.Loaded? && exec.phase.status.Running?)
  }

  ghost predicate Alone(runs: seq<Run>, execs: map<ExecId, Exec>) {
    && (forall x, y :: x in execs && y in execs && Busy(execs[x]) && Busy(execs[y]) ==> x == y)
    && (forall x, r :: x in execs && Busy(execs[x]) && 0 <= r < |runs| ==> !runs[r].status.Pending?)
  }

  /** One executor is busy at most; its run is active, or the session is over. */
  ghost predicate BusyInv(s: State) {
    && Alone(s.runs, s.execs)
    && (forall x :: x in s.execs && Busy(s.execs[x]) && s.execs[x].run < |s.runs| ==>
          ActiveRun(s.runs[s.execs[x].run]) || Region(s))
  }

  ghost predicate Calm(s: State) {
    Orderly(s) && StatusInv(s) && BusyInv(s)
  }

  lemma NobodyBusy(s: State)
    requires forall x :: x in s.execs ==> !Busy(s.execs[x])
    ensures BusyInv(s)
  {
  }

  lemma BeginBusy(s: State, x: ExecId, r: RunId)
    requires Calm(s) && Enabled(s, ExecStart(x, r))
    ensures BusyInv(Begin(s, x, r))
  {
    var s' := Begin(s, x, r);
    if s' != s {
      assert ActiveRun(s.runs[r]);
      assert s.runs[r].status.Pending?;
      assert forall y :: y in s.execs ==> !Busy(s.execs[y]);
      forall q | 0 <= q < |s.runs| && q != r ensures !ActiveRun(s.runs[q]) {}
    }
  }

  lemma CreateBusy(s: State, key: Option<string>)
    requires Calm(s)
    ensures BusyInv(Apply(s, CreateRun(key)))
  {
    if Submit(s, key).Created? {
      assert !Region(s) && NoActiveRun(s.runs);
      NobodyBusy(Apply(s, CreateRun(key)));
    }
  }

  lemma FinishBusy(s: State, x: ExecId)
    requires Calm(s) && Enabled(s, Finish(x)) && !Late(s, Finish(x))
    ensures BusyInv(Conclude(s, x))
  {
    assert ExecInv(s.runs, s.execs[x]);
    assert Busy(s.execs[x]);
    NobodyBusy(Conclude(s, x));
  }

  lemma CancelBusy(s: State, step: Step)
    requires Calm(s) && Enabled(s, step) && (step.StopOk? || step.DeleteOk?)
    ensures BusyInv(Apply(s, step))
  {
    RegionIsEntered(s, step);
  }

  lemma LoadBusy(s: State, x: ExecId, ending: Ending)
    requires Execs(s) && Enabled(s, Load(x, ending))
    ensures var execs := Reload(s, x, ending).execs;
      forall y :: y in execs && Busy(execs[y]) ==> y in s.execs && Busy(s.execs[y]) && execs[y].run == s.execs[y].run
  {
    assert ExecInv(s.runs, s.execs[x]);
  }

  /** The other steps activate nothing, and make nobody busy. */
  lemma OtherBusy(s: State, step: Step)
    requires Enabled(s, step) && !step.ExecStart? && !step.CreateRun? && !step.Finish? && !step.StopOk? && !step.DeleteOk?
    requires Execs(s)
    ensures var s' := Apply(s, step);
      && s'.runs == s.runs
      && forall x :: x in s'.execs && Busy(s'.execs[x]) ==>
           x in s.execs && Busy(s.execs[x]) && s'.execs[x].run == s.execs[x].run
  {
    if step.Load? {
      LoadBusy(s, step.exec, step.ending);
      assert Apply(s, step) == Reload(s, step.exec, step.ending);
    }
  }

  lemma FewerBusy(s: State, s': State)
    requires BusyInv(s) && (Region(s) ==> Region(s')) && s'.runs == s.runs
    requires forall x :: x in s'.execs && Busy(s'.execs[x]) ==>
      x in s.execs && Busy(s.execs[x]) && s'.execs[x].run == s.execs[x].run
    ensures BusyInv(s')
  {
  }

  lemma StepBusy(s: State, step: Step)
    requires Calm(s) && Enabled(s, step) && !Late(s, step)
    ensures BusyInv(Apply(s, step))
  {
    if step.ExecStart? {
      BeginBusy(s, step.exec, step.run);
    } else if step.CreateRun? {
      CreateBusy(s, step.key);
    } else if step.Finish? {
      FinishBusy(s, step.exec);
    } else if step.StopOk? || step.DeleteOk? {
      CancelBusy(s, step);
    } else {
      if Region(s) { RegionIsClosed(s, step); }
      OtherBusy(s, step);
      FewerBusy(s, Apply(s, step));
    }
  }

  /** Without late finishes and meddling no executor that has still to end its run ever runs beside another one or
      beside a run that waits to be started. So two that append to one session need an executor that has completed its run
      and is still to announce it, a worker that outlived its run, a late finish or meddling. */
  lemma {:induction false} OneBusyExecutor(id: SessionId, expiresAt: int, steps: seq<Step>)
    requires Prompt(Initial(id, expiresAt), steps) && Unmeddled(Initial(id, expiresAt), steps)
    requires Follow(Initial(id, expiresAt), steps).At?
    ensures BusyInv(Follow(Initial(id, expiresAt), steps).state)
  {
    if steps != [] {
      var n := |steps| - 1;
      var start := Initial(id, expiresAt);
      OneBusyExecutor(id, expiresAt, steps[..n]);
      InitialHolds(id, expiresAt);
      AlwaysOrderly(start, steps[..n]);
      AlwaysStatus(start, steps[..n]);
      StepBusy(Follow(start, steps[..n]).state, steps[n]);
    }
  }

  const ASKED: State :=
    DONE.(session := SessionRow("s", Status.Running, Some("rt"), 5, 100, false),
          runs := [Run(RunStatus.Completed, None), Run(Pending, None)],
          messages := [Message(0, User, 1), Message(0, Assistant, 2), Message(1, User, 3)])
  const BESIDE: State :=
    ASKED.(runs := [Run(RunStatus.Completed, None), Run(RunStatus.Running, None)],
           events := [RunEvent(0, RunStarted), RunEvent(0, FinalMessage), RunEvent(1, RunStarted)],
           execs := map[0 := Exec(0, Completing), 1 := Exec(1, Working)])

  lemma NextRunStarts()
    ensures Apply(DONE, CreateRun(None)) == ASKED && Apply(ASKED, ExecStart(1, 1)) == BESIDE
  {
    LargestIsLength(DONE.messages);
    assert Submit(DONE, None).Created?;
    assert DONE.runs + [Run(Pending, None)] == ASKED.runs;
    assert DONE.messages + [Message(1, User, 3)] == ASKED.messages;
    assert WithStatus(ASKED.runs, 1, RunStatus.Running) == BESIDE.runs;
    assert ASKED.events + [RunEvent(1, RunStarted)] == BESIDE.events;
  }

  lemma Completes() returns (steps: seq<Step>)
    ensures Follow(START, steps) == At(DONE) && Prompt(START, steps) && Unmeddled(START, steps)
  {
    steps := AnswerNumbered();
    QuietSoFar(steps);
    CompletesThenFails();
    assert ActiveRun(LOADED.runs[0]);
    steps := Calmly(steps, LOADED, Finish(0), DONE);
  }

  /** Nothing late, nothing meddled with: the executor of a completed run is still to append RUN_COMPLETED while the
      executor of the next run appends its events, so that appends to one session overlap. */
  lemma CompletingBesideWorking() returns (steps: seq<Step>)
    ensures Follow(START, steps) == At(BESIDE) && Prompt(START, steps) && Unmeddled(START, steps)
    ensures Enabled(BESIDE, Announce(0)) && Enabled(BESIDE, Emit(1))
  {
    steps := Completes();
    NextRunStarts();
    steps := Calmly(steps, DONE, CreateRun(None), ASKED);
    steps := Calmly(steps, ASKED, ExecStart(1, 1), BESIDE);
  }

  lemma Calmly(steps: seq<Step>, s: State, step: Step, t: State) returns (more: seq<Step>)
    requires Follow(START, steps) == At(s) && Enabled(s, step) && Apply(s, step) == t
    requires Prompt(START, steps) && Unmeddled(START, steps) && !Late(s, step) && !step.Reconcile?
    ensures Follow(START, more) == At(t) && Prompt(START, more) && Unmeddled(START, more)
  {
    Then(steps, s, step, t);
    more := steps + [step];
    assert more[..|steps|] == steps;
  }

  lemma {:induction false} QuietSoFar(steps: seq<Step>)
    requires forall i :: 0 <= i < |steps| ==> !steps[i].Finish? && !steps[i].Reconcile?
    ensures Prompt(START, steps) && Unmeddled(START, steps)
  {
    if steps != [] { QuietSoFar(steps[..|steps| - 1]); }
  }
}
