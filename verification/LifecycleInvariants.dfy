/** What every interleaving of the session's operations keeps. */
module LifecycleInvariants {
  import opened Wrappers
  import opened SessionRows
  import opened Lifecycle
  import R = Reconciler

  // ---------- runs and keys (no hypothesis) ----------

  /** Only the newest run can be active. */
  ghost predicate LastOnly(runs: seq<Run>) {
    forall r :: 0 <= r < |runs| - 1 ==> !ActiveRun(runs[r])
  }

  ghost predicate DistinctKeys(runs: seq<Run>) {
    forall i, j :: 0 <= i < j < |runs| && runs[i].key.Some? ==> runs[i].key != runs[j].key
  }

  /** Message sequences are 1, 2, ..., n. */
  ghost predicate Numbered(messages: seq<Message>) {
    forall i :: 0 <= i < |messages| ==> messages[i].sequence == i + 1
  }

  /** The runs of the USER messages, in order. */
  function Asked(messages: seq<Message>): seq<RunId> {
    if messages == [] then []
    else
      var n := |messages| - 1;
      Asked(messages[..n]) + (if messages[n].role.User? then [messages[n].run] else [])
  }

  /** One USER message per run, in creation order. */
  ghost predicate AskedOnce(runs: seq<Run>, messages: seq<Message>) {
    |Asked(messages)| == |runs| && forall r :: 0 <= r < |runs| ==> Asked(messages)[r] == r
  }

  /** A number read for an answer was at most one above the numbers then in use. */
  predicate NumberKnown(phase: Phase, messages: nat) {
    phase.Loaded? && phase.sequence.Some? ==> 1 <= phase.sequence.value <= messages + 1
  }

  ghost predicate Tables(s: State) {
    && LastOnly(s.runs)
    && DistinctKeys(s.runs)
    && Numbered(s.messages)
    && AskedOnce(s.runs, s.messages)
    && (forall x :: x in s.execs ==> s.execs[x].run < |s.runs| && NumberKnown(s.execs[x].phase, |s.messages|))
    && (forall e :: e in s.events ==> e.run < |s.runs|)
    && (forall row :: row in s.stops ==> row.status.Stopping? && !row.deleted)
    && (forall row :: row in s.deletes ==> !row.deleted)
  }

  lemma {:induction false} LargestIsLength(messages: seq<Message>)
    requires Numbered(messages)
    ensures LargestSequence(messages) == |messages|
  {
    if messages != [] { LargestIsLength(messages[..|messages| - 1]); }
  }

  lemma SayKeeps(messages: seq<Message>, run: RunId, role: Role)
    requires Numbered(messages)
    ensures Numbered(Say(messages, run, role))
    ensures Say(messages, run, role) == messages + [Message(run, role, |messages| + 1)]
    ensures Asked(Say(messages, run, role)) == Asked(messages) + (if role.User? then [run] else [])
  {
    LargestIsLength(messages);
    var more := Say(messages, run, role);
    assert more[..|messages|] == messages;
  }

  lemma {:induction false} KeyFound(runs: seq<Run>, key: string)
    ensures FindKey(runs, key).Some? ==>
      FindKey(runs, key).value < |runs| && runs[FindKey(runs, key).value].key == Some(key)
    ensures FindKey(runs, key).None? ==> forall i :: 0 <= i < |runs| ==> runs[i].key != Some(key)
  {
    if runs != [] { KeyFound(runs[..|runs| - 1], key); }
  }

  lemma CreateRunTables(s: State, key: Option<string>)
    requires Tables(s)
    ensures Tables(Apply(s, CreateRun(key)))
  {
    if Submit(s, key).Created? {
      SayKeeps(s.messages, |s.runs|, User);
      if key.Some? { KeyFound(s.runs, key.value); }
    }
  }

  lemma NumberIsUsed(messages: seq<Message>, sequence: int)
    requires Numbered(messages)
    ensures 1 <= sequence <= |messages| ==> !Unused(messages, sequence)
  {
    if 1 <= sequence <= |messages| { assert messages[sequence - 1].sequence == sequence; }
  }

  /** The unique constraint lets an answer be committed only with the next number. */
  lemma UnusedIsNext(messages: seq<Message>, sequence: int)
    requires Numbered(messages) && 1 <= sequence <= |messages| + 1 && Unused(messages, sequence)
    ensures sequence == LargestSequence(messages) + 1 == |messages| + 1
  {
    LargestIsLength(messages);
    NumberIsUsed(messages, sequence);
  }

  lemma FinishSays(s: State, x: ExecId)
    requires Tables(s) && Enabled(s, Finish(x)) && s.execs[x].phase.ending.Success?
    ensures Conclude(s, x).messages == Say(s.messages, s.execs[x].run, Assistant)
  {
    UnusedIsNext(s.messages, s.execs[x].phase.sequence.value);
  }

  /** The messages, if the finish is a success, are one answer more. */
  lemma FinishMessages(s: State, x: ExecId)
    requires Tables(s) && Enabled(s, Finish(x))
    ensures var s' := Conclude(s, x);
      && Numbered(s'.messages) && Asked(s'.messages) == Asked(s.messages) && |s'.messages| >= |s.messages|
  {
    if s.execs[x].phase.ending.Success? {
      FinishSays(s, x);
      SayKeeps(s.messages, s.execs[x].run, Assistant);
      assert Asked(s.messages) + [] == Asked(s.messages);
    }
  }

  lemma FinishFrame(s: State, x: ExecId)
    requires Enabled(s, Finish(x))
    ensures var r, s' := s.execs[x].run, Conclude(s, x);
      && s'.stops == s.stops && s'.deletes == s.deletes
      && s'.runs == WithStatus(s.runs, r, s'.runs[r].status) && (s'.runs[r].status.Completed? || s'.runs[r].status.Failed?)
      && (forall e :: e in s'.events ==> e in s.events || e.run == r)
      && (forall y :: y in s'.execs ==> (y in s.execs && s'.execs[y] == s.execs[y]) || s'.execs[y] == Exec(r, Completing))
  {
  }

  lemma FinishTables(s: State, x: ExecId)
    requires Tables(s) && Enabled(s, Finish(x))
    ensures Tables(Conclude(s, x))
  {
    var r, s' := s.execs[x].run, Conclude(s, x);
    FinishFrame(s, x);
    FinishMessages(s, x);
    EndedRuns(s.runs, r, s'.runs[r].status);
  }

  lemma EndedRuns(runs: seq<Run>, r: RunId, status: RunStatus)
    requires r < |runs| && LastOnly(runs) && DistinctKeys(runs)
    requires status.Completed? || status.Failed?
    ensures LastOnly(WithStatus(runs, r, status)) && DistinctKeys(WithStatus(runs, r, status))
  {
  }

  lemma ExecTables(s: State, step: Step)
    requires Tables(s) && Enabled(s, step)
    requires step.ExecStart? || step.Emit? || step.Load? || step.Announce? || step.ExecLost?
    ensures Tables(Apply(s, step))
  {
    if step.ExecStart? { BeginTables(s, step.exec, step.run); } else { ExecFrame(s, step); }
  }

  lemma BeginTables(s: State, x: ExecId, r: RunId)
    requires Tables(s) && Enabled(s, ExecStart(x, r))
    ensures Tables(Begin(s, x, r))
  {
  }

  lemma ExecFrame(s: State, step: Step)
    requires Tables(s) && Enabled(s, step) && (step.Emit? || step.Load? || step.Announce? || step.ExecLost?)
    ensures Tables(Apply(s, step))
  {
    var s' := Apply(s, step);
    assert s'.runs == s.runs && s'.messages == s.messages && s'.stops == s.stops && s'.deletes == s.deletes;
  }

  lemma NumberTables(s: State, x: ExecId)
    requires Tables(s) && Enabled(s, NumberAnswer(x))
    ensures Tables(Apply(s, NumberAnswer(x)))
  {
    LargestIsLength(s.messages);
  }

  lemma DrainTables(s: State, step: Step)
    requires Tables(s) && Leaked(s.runs, s.execs, s.leaks) && Enabled(s, step) && (step.Drain? || step.DrainStops?)
    ensures Tables(Apply(s, step))
  {
    assert step.run < |s.runs|;
  }

  lemma CancelTables(s: State)
    requires Tables(s)
    ensures Tables(s.(runs := CancelActive(s.runs)))
  {
  }

  lemma StopTables(s: State, step: Step)
    requires Tables(s) && Enabled(s, step)
    requires step.StopBegin? || step.StopOk? || step.StopFails? || step.StopLost?
    ensures Tables(Apply(s, step))
  {
    if step.StopOk? { CancelTables(s); }
  }

  lemma SessionTables(s: State, step: Step)
    requires Tables(s) && Enabled(s, step)
    requires step.CreateOk? || step.CreateFails? || step.CreateLost? || step.Reconcile?
             || step.DeleteBegin? || step.DeleteOk? || step.DeleteLost?
    ensures Tables(Apply(s, step))
  {
    if step.DeleteOk? { CancelTables(s); }
  }

  lemma StepTables(s: State, step: Step)
    requires Tables(s) && Execs(s) && Enabled(s, step)
    ensures Tables(Apply(s, step))
  {
    match step
    case CreateRun(key) => CreateRunTables(s, key);
    case Finish(x) => FinishTables(s, x);
    case ExecStart(_, _) => ExecTables(s, step);
    case Emit(_) => ExecTables(s, step);
    case Load(_, _) => ExecTables(s, step);
    case NumberAnswer(x) => NumberTables(s, x);
    case Announce(_) => ExecTables(s, step);
    case ExecLost(_) => ExecTables(s, step);
    case Drain(_) => DrainTables(s, step);
    case DrainStops(_) => DrainTables(s, step);
    case StopBegin => StopTables(s, step);
    case StopOk(_) => StopTables(s, step);
    case StopFails(_) => StopTables(s, step);
    case StopLost(_) => StopTables(s, step);
    case _ => SessionTables(s, step);
  }

  // ---------- executors and leaked workers (no hypothesis) ----------

  /** What an executor in flight knows about its run. */
  ghost predicate ExecInv(runs: seq<Run>, exec: Exec) {
    exec.run < |runs| &&
    var status := runs[exec.run].status;
    match exec.phase
    case Working => status.Running? || status.Cancelled?
    case Loaded(ending, seen, _, _) =>
      if seen.Running? then status.Running? || status.Cancelled?
      else seen.Completed? && ending.Failure? && status.Completed?
    case Completing => status.Completed?
  }

  ghost predicate ExecsOf(runs: seq<Run>, execs: map<ExecId, Exec>) {
    && (forall x :: x in execs ==> ExecInv(runs, execs[x]))
    && (forall x, y :: x in execs && y in execs && execs[x].run == execs[y].run ==> x == y)
  }

  /** A run whose worker leaked has not been completed and its executor, if there is one, only fails it. */
  ghost predicate Leaked(runs: seq<Run>, execs: map<ExecId, Exec>, leaks: set<RunId>) {
    && (forall r :: r in leaks ==>
          r < |runs| && (runs[r].status.Running? || runs[r].status.Cancelled? || runs[r].status.Failed?))
    && (forall x :: x in execs && execs[x].run in leaks ==> execs[x].phase.Loaded? && !execs[x].phase.ending.Success?)
  }

  ghost predicate Execs(s: State) {
    ExecsOf(s.runs, s.execs) && Leaked(s.runs, s.execs, s.leaks)
  }

  lemma BeginExecs(s: State, x: ExecId, r: RunId)
    requires Execs(s) && Enabled(s, ExecStart(x, r))
    ensures Execs(Begin(s, x, r))
  {
    if s.runs[r].status.Pending? {
      forall y | y in s.execs ensures s.execs[y].run != r { assert ExecInv(s.runs, s.execs[y]); }
      assert r !in s.leaks;
    }
  }

  lemma ReloadExecs(s: State, x: ExecId, ending: Ending)
    requires Execs(s) && Enabled(s, Load(x, ending))
    ensures Execs(Reload(s, x, ending))
  {
    assert ExecInv(s.runs, s.execs[x]);
  }

  lemma FinishExecs(s: State, x: ExecId)
    requires Execs(s) && Enabled(s, Finish(x))
    ensures Execs(Conclude(s, x))
  {
    var r := s.execs[x].run;
    if s.execs[x].phase.ending.Success? {
      EndedExecs(s, x, RunStatus.Completed, s.execs[x := Exec(r, Completing)]);
    } else {
      EndedExecs(s, x, RunStatus.Failed, s.execs - {x});
    }
  }

  lemma EndedExecs(s: State, x: ExecId, status: RunStatus, execs: map<ExecId, Exec>)
    requires Execs(s) && x in s.execs && s.execs[x].run < |s.runs| && s.execs[x].phase.Loaded?
    requires (status.Completed? && s.execs[x].phase.ending.Success? && execs == s.execs[x := Exec(s.execs[x].run, Completing)])
          || (status.Failed? && execs == s.execs - {x})
    ensures ExecsOf(WithStatus(s.runs, s.execs[x].run, status), execs)
    ensures Leaked(WithStatus(s.runs, s.execs[x].run, status), execs, s.leaks)
  {
  }

  /** Cancelling active runs or adding one leaves what executors and workers know true. */
  lemma RunsExecs(runs: seq<Run>, runs': seq<Run>, execs: map<ExecId, Exec>, leaks: set<RunId>)
    requires ExecsOf(runs, execs) && Leaked(runs, execs, leaks)
    requires |runs| <= |runs'| && forall r :: 0 <= r < |runs| ==>
      runs'[r].status == runs[r].status || (ActiveRun(runs[r]) && runs'[r].status.Cancelled?)
    ensures ExecsOf(runs', execs) && Leaked(runs', execs, leaks)
  {
    forall x | x in execs ensures ExecInv(runs', execs[x]) { assert ExecInv(runs, execs[x]); }
  }

  lemma FewerExecs(runs: seq<Run>, execs: map<ExecId, Exec>, leaks: set<RunId>, fewer: map<ExecId, Exec>, left: set<RunId>)
    requires ExecsOf(runs, execs) && Leaked(runs, execs, leaks)
    requires left <= leaks && forall x :: x in fewer ==> x in execs && fewer[x] == execs[x]
    ensures ExecsOf(runs, fewer) && Leaked(runs, fewer, left)
  {
  }

  lemma NumberExecs(s: State, x: ExecId)
    requires Execs(s) && Enabled(s, NumberAnswer(x))
    ensures Execs(Apply(s, NumberAnswer(x)))
  {
    assert ExecInv(s.runs, s.execs[x]);
  }

  lemma OtherExecs(s: State, step: Step)
    requires Execs(s) && Enabled(s, step)
    requires !step.ExecStart? && !step.Load? && !step.NumberAnswer? && !step.Finish?
    ensures Execs(Apply(s, step))
  {
    var s' := Apply(s, step);
    if step.CreateRun? || step.StopOk? || step.DeleteOk? {
      RunsExecs(s.runs, s'.runs, s.execs, s.leaks);
      assert s'.execs == s.execs && s'.leaks == s.leaks;
    } else {
      assert s'.runs == s.runs && s'.leaks <= s.leaks;
      FewerExecs(s.runs, s.execs, s.leaks, s'.execs, s'.leaks);
    }
  }

  lemma StepExecs(s: State, step: Step)
    requires Tables(s) && Execs(s) && Enabled(s, step)
    ensures Execs(Apply(s, step))
  {
    if step.ExecStart? {
      BeginExecs(s, step.exec, step.run);
    } else if step.Load? {
      ReloadExecs(s, step.exec, step.ending);
    } else if step.NumberAnswer? {
      NumberExecs(s, step.exec);
    } else if step.Finish? {
      FinishExecs(s, step.exec);
    } else {
      OtherExecs(s, step);
    }
  }

  ghost predicate Orderly(s: State) {
    Tables(s) && Execs(s)
  }

  lemma StepOrderly(s: State, step: Step)
    requires Orderly(s) && Enabled(s, step)
    ensures Orderly(Apply(s, step))
  {
    StepTables(s, step);
    StepExecs(s, step);
  }

  // ---------- session status (no late finish, no meddling) ----------

  ghost predicate StatusInv(s: State) {
    && (s.session.status.Ready? ==> NoActiveRun(s.runs))
    && (s.session.status.Creating? ==> s.runs == [])
    && (s.creating ==> s.runs == [] && s.stops == multiset{} && (s.session.deleted || s.session.status.Creating?))
  }

  lemma ReconcileStatus(row: SessionRow, candidates: seq<R.Runtime>, now: int)
    ensures var row' := R.ReconcileRow(row, candidates, now);
      && (row'.status.Ready? ==> row.status.Ready? || row.status.Creating?)
      && (row'.status.Creating? ==> row.status.Creating?)
  {
  }

  lemma FinishStatus(s: State, x: ExecId)
    requires Orderly(s) && StatusInv(s) && Enabled(s, Finish(x)) && !Late(s, Finish(x))
    ensures StatusInv(Conclude(s, x))
  {
    var r := s.execs[x].run;
    assert forall i :: 0 <= i < |s.runs| && i != r ==> !ActiveRun(s.runs[i]);
  }

  lemma StepStatus(s: State, step: Step)
    requires Orderly(s) && StatusInv(s) && Enabled(s, step) && !Late(s, step) && !Meddles(s, step)
    ensures StatusInv(Apply(s, step))
  {
    if step.Finish? {
      FinishStatus(s, step.exec);
    } else if step.Reconcile? {
      ReconcileStatus(s.session, step.candidates, step.now);
    } else if step.CreateRun? || step.ExecStart? {
      SubmitStatus(s, step);
    } else {
      OtherStatus(s, step);
    }
  }

  lemma OtherStatus(s: State, step: Step)
    requires Tables(s) && StatusInv(s) && Enabled(s, step)
    requires !step.Finish? && !step.Reconcile? && !step.CreateRun? && !step.ExecStart?
    ensures StatusInv(Apply(s, step))
  {
    if step.StopOk? || step.DeleteOk? { assert NoActiveRun(CancelActive(s.runs)); }
  }

  lemma SubmitStatus(s: State, step: Step)
    requires StatusInv(s) && Enabled(s, step) && (step.CreateRun? || step.ExecStart?)
    ensures StatusInv(Apply(s, step))
  {
    if step.ExecStart? && s.runs[step.run].status.Pending? { assert ActiveRun(s.runs[step.run]); }
  }

  // ---------- whole runs ----------

  lemma InitialHolds(id: SessionId, expiresAt: int)
    ensures Orderly(Initial(id, expiresAt)) && StatusInv(Initial(id, expiresAt))
  {
  }

  lemma {:induction false} AlwaysOrderly(s: State, steps: seq<Step>)
    requires Orderly(s)
    ensures Follow(s, steps).At? ==> Orderly(Follow(s, steps).state)
  {
    if steps != [] {
      var n := |steps| - 1;
      AlwaysOrderly(s, steps[..n]);
      if Follow(s, steps).At? { StepOrderly(Follow(s, steps[..n]).state, steps[n]); }
    }
  }

  lemma {:induction false} AlwaysStatus(s: State, steps: seq<Step>)
    requires Orderly(s) && StatusInv(s) && Prompt(s, steps) && Unmeddled(s, steps)
    ensures Follow(s, steps).At? ==> StatusInv(Follow(s, steps).state)
  {
    if steps != [] {
      var n := |steps| - 1;
      AlwaysStatus(s, steps[..n]);
      AlwaysOrderly(s, steps[..n]);
      if Follow(s, steps).At? { StepStatus(Follow(s, steps[..n]).state, steps[n]); }
    }
  }
}
