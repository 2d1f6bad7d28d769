/** The message log over every interleaving, and exactly when it stops being the transcript of the runs. */
module LifecycleTranscript {
  import opened Wrappers
  import opened SessionRows
  import opened Lifecycle
  import opened LifecycleInvariants
  import R = Reconciler

  datatype Entry = Entry(run: RunId, role: Role)

  /** The conversation the runs stand for: each run's question, and its answer if it was completed. */
  function Transcript(runs: seq<Run>): seq<Entry> {
    if runs == [] then []
    else
      var n := |runs| - 1;
      Transcript(runs[..n]) + [Entry(n, User)] + (if runs[n].status.Completed? then [Entry(n, Assistant)] else [])
  }

  ghost predicate Transcribed(runs: seq<Run>, messages: seq<Message>) {
    |messages| == |Transcript(runs)| &&
    forall i :: 0 <= i < |messages| ==> Entry(messages[i].run, messages[i].role) == Transcript(runs)[i]
  }

  // ---------- transcripts ----------

  /** The transcript depends only on which runs are completed. */
  lemma {:induction false} SameTranscript(runs: seq<Run>, runs': seq<Run>)
    requires |runs| == |runs'|
    requires forall r :: 0 <= r < |runs| ==> (runs[r].status.Completed? <==> runs'[r].status.Completed?)
    ensures Transcript(runs) == Transcript(runs')
  {
    if runs != [] {
      var n := |runs| - 1;
      SameTranscript(runs[..n], runs'[..n]);
    }
  }

  lemma NewestAnswered(runs: seq<Run>)
    requires runs != [] && !runs[|runs| - 1].status.Completed?
    ensures var n := |runs| - 1;
      Transcript(WithStatus(runs, n, RunStatus.Completed)) == Transcript(runs) + [Entry(n, Assistant)]
  {
    var n := |runs| - 1;
    var runs' := WithStatus(runs, n, RunStatus.Completed);
    assert runs'[..n] == runs[..n];
    var before := Transcript(runs[..n]) + [Entry(n, User)];
    assert Transcript(runs) == before + [] == before;
    assert Transcript(runs') == before + [Entry(n, Assistant)];
  }

  lemma OneMoreRun(runs: seq<Run>, run: Run)
    requires run.status.Pending?
    ensures Transcript(runs + [run]) == Transcript(runs) + [Entry(|runs|, User)]
  {
    var runs' := runs + [run];
    assert runs'[..|runs|] == runs;
    assert Transcript(runs) + [Entry(|runs|, User)] + [] == Transcript(runs) + [Entry(|runs|, User)];
  }

  /** A transcript goes through the runs in creation order. */
  lemma {:induction false} TranscriptInOrder(runs: seq<Run>)
    ensures forall i :: 0 <= i < |Transcript(runs)| ==> Transcript(runs)[i].run < |runs|
    ensures forall i, j :: 0 <= i < j < |Transcript(runs)| ==> Transcript(runs)[i].run <= Transcript(runs)[j].run
  {
    if runs != [] { TranscriptInOrder(runs[..|runs| - 1]); }
  }

  function Answers(runs: seq<Run>): nat {
    if runs == [] then 0 else Answers(runs[..|runs| - 1]) + if runs[|runs| - 1].status.Completed? then 1 else 0
  }

  lemma {:induction false} TranscriptLength(runs: seq<Run>)
    ensures |Transcript(runs)| == |runs| + Answers(runs)
  {
    if runs != [] { TranscriptLength(runs[..|runs| - 1]); }
  }

  lemma {:induction false} AnswersOfStatus(runs: seq<Run>, r: RunId, status: RunStatus)
    requires r < |runs|
    ensures Answers(WithStatus(runs, r, status)) + (if runs[r].status.Completed? then 1 else 0)
         == Answers(runs) + (if status.Completed? then 1 else 0)
  {
    var n := |runs| - 1;
    var runs' := WithStatus(runs, r, status);
    if r < n {
      AnswersOfStatus(runs[..n], r, status);
      assert runs'[..n] == WithStatus(runs[..n], r, status);
    } else {
      assert runs'[..n] == runs[..n];
    }
  }

  // ---------- one step ----------

  lemma CreateRunTranscript(s: State, key: Option<string>)
    requires Tables(s) && Transcribed(s.runs, s.messages)
    ensures Transcribed(Apply(s, CreateRun(key)).runs, Apply(s, CreateRun(key)).messages)
  {
    SayKeeps(s.messages, |s.runs|, User);
    OneMoreRun(s.runs, Run(Pending, key));
  }

  lemma AnsweredTranscript(runs: seq<Run>, messages: seq<Message>, r: RunId)
    requires Transcribed(runs, messages) && Numbered(messages)
    requires r == |runs| - 1 && !runs[r].status.Completed?
    ensures Transcribed(WithStatus(runs, r, RunStatus.Completed), Say(messages, r, Assistant))
  {
    SayKeeps(messages, r, Assistant);
    NewestAnswered(runs);
  }

  lemma FinishTranscript(s: State, x: ExecId)
    requires Orderly(s) && Transcribed(s.runs, s.messages) && Enabled(s, Finish(x)) && !Misplaces(s, Finish(x))
    ensures Transcribed(Conclude(s, x).runs, Conclude(s, x).messages)
  {
    var r, s' := s.execs[x].run, Conclude(s, x);
    if s.execs[x].phase.ending.Success? {
      FinishSays(s, x);
      AnsweredTranscript(s.runs, s.messages, r);
      assert s'.runs == WithStatus(s.runs, r, RunStatus.Completed);
    } else {
      SameTranscript(s.runs, WithStatus(s.runs, r, RunStatus.Failed));
      assert s'.runs == WithStatus(s.runs, r, RunStatus.Failed) && s'.messages == s.messages;
    }
  }

  /** The other steps complete no run, undo no completion and add no message. */
  lemma OtherKeepsAnswers(s: State, step: Step)
    requires Enabled(s, step) && !step.CreateRun? && !step.Finish?
    ensures var s' := Apply(s, step);
      && s'.messages == s.messages && |s'.runs| == |s.runs|
      && forall r :: 0 <= r < |s.runs| ==> (s'.runs[r].status.Completed? <==> s.runs[r].status.Completed?)
  {
    if step.StopOk? || step.DeleteOk? {
      assert Apply(s, step).runs == CancelActive(s.runs);
    } else if step.ExecStart? {
      assert Apply(s, step).runs == s.runs || Apply(s, step).runs == WithStatus(s.runs, step.run, RunStatus.Running);
    } else {
      assert Apply(s, step).runs == s.runs;
    }
  }

  lemma StepTranscript(s: State, step: Step)
    requires Orderly(s) && Transcribed(s.runs, s.messages) && Enabled(s, step) && !Misplaces(s, step)
    ensures Transcribed(Apply(s, step).runs, Apply(s, step).messages)
  {
    if step.CreateRun? {
      CreateRunTranscript(s, step.key);
    } else if step.Finish? {
      FinishTranscript(s, step.exec);
    } else {
      OtherKeepsAnswers(s, step);
      SameTranscript(s.runs, Apply(s, step).runs);
    }
  }

  // ---------- a misplaced message stays misplaced ----------

  predicate Inversion(messages: seq<Message>, i: nat, j: nat) {
    i < j < |messages| && messages[i].run > messages[j].run
  }

  /** More messages than the runs account for, or a message of an older run after one of a newer run. */
  ghost predicate Misplaced(runs: seq<Run>, messages: seq<Message>) {
    |messages| > |Transcript(runs)| || exists i: nat, j: nat :: Inversion(messages, i, j)
  }

  lemma MisplacedIsNoTranscript(runs: seq<Run>, messages: seq<Message>)
    requires Misplaced(runs, messages)
    ensures !Transcribed(runs, messages)
  {
    TranscriptInOrder(runs);
    if |messages| <= |Transcript(runs)| {
      var i: nat, j: nat :| Inversion(messages, i, j);
      if |messages| == |Transcript(runs)| {
        assert Transcript(runs)[i].run <= Transcript(runs)[j].run;
      }
    }
  }

  /** Messages are only appended, and never fewer than the answers and questions the runs gain. */
  lemma MessagesGrow(s: State, step: Step)
    requires Orderly(s) && Enabled(s, step)
    ensures var s' := Apply(s, step);
      && s.messages <= s'.messages
      && |s'.messages| - |s.messages| >= |Transcript(s'.runs)| - |Transcript(s.runs)|
  {
    var s' := Apply(s, step);
    if step.CreateRun? {
      OneMoreRun(s.runs, Run(Pending, step.key));
    } else if step.Finish? {
      var r := s.execs[step.exec].run;
      TranscriptLength(s.runs);
      TranscriptLength(s'.runs);
      AnswersOfStatus(s.runs, r, s'.runs[r].status);
      assert s'.runs == WithStatus(s.runs, r, s'.runs[r].status);
    } else {
      OtherKeepsAnswers(s, step);
      SameTranscript(s.runs, s'.runs);
    }
  }

  lemma MisplacedStays(s: State, step: Step)
    requires Orderly(s) && Enabled(s, step) && Misplaced(s.runs, s.messages)
    ensures Misplaced(Apply(s, step).runs, Apply(s, step).messages)
  {
    var s' := Apply(s, step);
    MessagesGrow(s, step);
    if |s.messages| <= |Transcript(s.runs)| {
      var i: nat, j: nat :| Inversion(s.messages, i, j);
      assert Inversion(s'.messages, i, j);
    }
  }

  lemma {:induction false} AskedIsSaid(messages: seq<Message>, k: nat) returns (i: nat)
    requires k < |Asked(messages)|
    ensures i < |messages| && messages[i].role.User? && messages[i].run == Asked(messages)[k]
  {
    var n := |messages| - 1;
    if k < |Asked(messages[..n])| { i := AskedIsSaid(messages[..n], k); } else { i := n; }
  }

  lemma MisplacingMisplaces(s: State, step: Step)
    requires Orderly(s) && Transcribed(s.runs, s.messages) && Enabled(s, step) && Misplaces(s, step)
    ensures Misplaced(Apply(s, step).runs, Apply(s, step).messages)
  {
    var s' := Apply(s, step);
    var r := s.execs[step.exec].run;
    assert ExecInv(s.runs, s.execs[step.exec]);
    if AnswersOld(s, step) {
      var i := AskedIsSaid(s.messages, |s.runs| - 1);
      assert Inversion(s'.messages, i, |s.messages|);
    } else {
      TranscriptLength(s.runs);
      TranscriptLength(s'.runs);
      AnswersOfStatus(s.runs, r, RunStatus.Failed);
      assert s'.runs == WithStatus(s.runs, r, RunStatus.Failed);
    }
  }

  /** A step keeps the message log the transcript of the runs if and only if it neither ends a completed run
      once more nor answers an old run. */
  lemma TranscriptKeptIff(s: State, step: Step)
    requires Orderly(s) && Transcribed(s.runs, s.messages) && Enabled(s, step)
    ensures Transcribed(Apply(s, step).runs, Apply(s, step).messages) <==> !Misplaces(s, step)
  {
    if Misplaces(s, step) {
      MisplacingMisplaces(s, step);
      MisplacedIsNoTranscript(Apply(s, step).runs, Apply(s, step).messages);
    } else {
      StepTranscript(s, step);
    }
  }

  lemma {:induction false} AlwaysTranscribed(s: State, steps: seq<Step>)
    requires Orderly(s) && Transcribed(s.runs, s.messages) && Follow(s, steps).At?
    ensures var t := Follow(s, steps).state;
      if Never(Misplaces, s, steps) then Transcribed(t.runs, t.messages) else Misplaced(t.runs, t.messages)
  {
    if steps != [] {
      var n := |steps| - 1;
      AlwaysTranscribed(s, steps[..n]);
      AlwaysOrderly(s, steps[..n]);
      var m := Follow(s, steps[..n]).state;
      if !Never(Misplaces, s, steps[..n]) {
        MisplacedStays(m, steps[n]);
      } else if Misplaces(m, steps[n]) {
        MisplacingMisplaces(m, steps[n]);
      } else {
        StepTranscript(m, steps[n]);
      }
    }
  }

  // ---------- answers to old runs need a meddling reconciler ----------

  /** The executor may still end its run as if it were active. */
  predicate Live(phase: Phase) {
    phase.Working? || (phase.Loaded? && phase.status.Running?)
  }

  /** Live executors run the newest run, and none is left when the session takes submissions. */
  ghost predicate NewestOnly(s: State) {
    && (forall x :: x in s.execs && Live(s.execs[x].phase) ==> s.execs[x].run == |s.runs| - 1)
    && (s.session.status.Ready? ==> forall x :: x in s.execs ==> !Live(s.execs[x].phase))
    && (s.session.status.Creating? ==> s.runs == [])
    && (s.creating ==> s.runs == [] && s.stops == multiset{} && (s.session.deleted || s.session.status.Creating?))
  }

  lemma FinishNewest(s: State, x: ExecId)
    requires Orderly(s) && NewestOnly(s) && Enabled(s, Finish(x)) && !AfterCompletion(s, Finish(x))
    ensures NewestOnly(Conclude(s, x))
  {
    assert ExecInv(s.runs, s.execs[x]);
  }

  lemma BeginNewest(s: State, x: ExecId, r: RunId)
    requires Orderly(s) && NewestOnly(s) && Enabled(s, ExecStart(x, r))
    ensures NewestOnly(Begin(s, x, r))
  {
    if s.runs[r].status.Pending? { assert ActiveRun(s.runs[r]) && r == |s.runs| - 1; }
  }

  lemma ReloadNewest(s: State, x: ExecId, ending: Ending)
    requires Orderly(s) && NewestOnly(s) && Enabled(s, Load(x, ending))
    ensures NewestOnly(Reload(s, x, ending))
  {
    assert ExecInv(s.runs, s.execs[x]);
  }

  lemma StopNewest(s: State, step: Step)
    requires Orderly(s) && NewestOnly(s) && Enabled(s, step)
    requires step.StopBegin? || step.StopOk? || step.StopFails? || step.StopLost? || step.DeleteBegin? || step.DeleteOk? || step.DeleteLost?
    ensures NewestOnly(Apply(s, step))
  {
    if step.StopOk? || step.DeleteOk? { CancelNewest(s, step); } else { assert Apply(s, step).runs == s.runs; }
  }

  lemma CancelNewest(s: State, step: Step)
    requires Orderly(s) && NewestOnly(s) && Enabled(s, step) && (step.StopOk? || step.DeleteOk?)
    ensures NewestOnly(Apply(s, step))
  {
  }

  lemma CreateNewest(s: State, step: Step)
    requires Orderly(s) && NewestOnly(s) && Enabled(s, step)
    requires step.CreateOk? || step.CreateFails? || step.CreateLost? || step.CreateRun?
    ensures NewestOnly(Apply(s, step))
  {
    if s.creating { assert forall x :: x !in s.execs; }
  }

  lemma OtherNewest(s: State, step: Step)
    requires NewestOnly(s) && Enabled(s, step)
    requires step.Emit? || step.NumberAnswer? || step.Announce? || step.ExecLost? || step.Drain? || step.DrainStops?
    ensures NewestOnly(Apply(s, step))
  {
    var s' := Apply(s, step);
    assert s'.session == s.session && s'.runs == s.runs && s'.creating == s.creating && s'.stops == s.stops;
    assert forall x :: x in s'.execs ==>
      x in s.execs && s'.execs[x].run == s.execs[x].run && (Live(s'.execs[x].phase) ==> Live(s.execs[x].phase));
  }

  lemma ReconcileNewest(s: State, step: Step)
    requires Orderly(s) && NewestOnly(s) && step.Reconcile? && !Meddles(s, step)
    ensures NewestOnly(Apply(s, step))
  {
    ReconcileStatus(s.session, step.candidates, step.now);
    if s.session.status.Creating? { assert forall x :: x !in s.execs; }
  }

  lemma StepNewest(s: State, step: Step)
    requires Orderly(s) && NewestOnly(s) && Enabled(s, step) && !Meddles(s, step) && !AfterCompletion(s, step)
    ensures NewestOnly(Apply(s, step)) && !AnswersOld(s, step)
  {
    if step.Finish? {
      FinishNewest(s, step.exec);
      assert ExecInv(s.runs, s.execs[step.exec]);
    } else if step.ExecStart? {
      BeginNewest(s, step.exec, step.run);
    } else if step.Load? {
      ReloadNewest(s, step.exec, step.ending);
    } else if step.Reconcile? {
      ReconcileNewest(s, step);
    } else if step.CreateOk? || step.CreateFails? || step.CreateLost? || step.CreateRun? {
      CreateNewest(s, step);
    } else if step.Emit? || step.NumberAnswer? || step.Announce? || step.ExecLost? || step.Drain? || step.DrainStops? {
      OtherNewest(s, step);
    } else {
      StopNewest(s, step);
    }
  }

  /** While the reconciler leaves sessions in creation alone, only an exception after a completion can misplace a
      message: stops and deletes inside an executor's last window cannot. */
  lemma {:induction false} UnmeddledAnswersInPlace(s: State, steps: seq<Step>)
    requires Orderly(s) && NewestOnly(s) && Follow(s, steps).At?
    requires Unmeddled(s, steps)
    ensures Never(Misplaces, s, steps) <==> Never(AfterCompletion, s, steps)
    ensures Never(AfterCompletion, s, steps) ==> NewestOnly(Follow(s, steps).state)
  {
    if steps != [] {
      var n := |steps| - 1;
      UnmeddledAnswersInPlace(s, steps[..n]);
      AlwaysOrderly(s, steps[..n]);
      var m := Follow(s, steps[..n]).state;
      if Never(AfterCompletion, s, steps[..n]) && !AfterCompletion(m, steps[n]) { StepNewest(m, steps[n]); }
    }
  }
}
