/** What each operation of the session lifecycle answers and does, for every state: read off the rows alone. */
module LifecycleOutcomes {
  import opened Wrappers
  import opened SessionRows
  import opened Lifecycle
  import opened LifecycleInvariants

  // ---------- submissions ----------

  /** Run `r` was submitted with this key. */
  predicate Carries(runs: seq<Run>, r: int, key: string) {
    0 <= r < |runs| && runs[r].key == Some(key)
  }

  ghost predicate Carried(runs: seq<Run>, key: Option<string>) {
    key.Some? && exists r :: Carries(runs, r, key.value)
  }

  ghost predicate Waits(runs: seq<Run>) {
    exists r :: 0 <= r < |runs| && (runs[r].status == Pending || runs[r].status == RunStatus.Running)
  }

  lemma KeyIsCarried(runs: seq<Run>, key: string)
    requires DistinctKeys(runs)
    ensures FindKey(runs, key).Some? <==> Carried(runs, Some(key))
    ensures forall r: nat :: FindKey(runs, key) == Some(r) <==> Carries(runs, r, key)
  {
    KeyFound(runs, key);
    if FindKey(runs, key).Some? {
      var q := FindKey(runs, key).value;
      assert Carries(runs, q, key);
      forall r: nat | Carries(runs, r, key) ensures r == q {}
    }
  }

  lemma ActiveWaits(runs: seq<Run>)
    ensures NoActiveRun(runs) <==> !Waits(runs)
  {
    if NoActiveRun(runs) {
      forall r | 0 <= r < |runs| ensures runs[r].status != Pending && runs[r].status != RunStatus.Running {
        assert !ActiveRun(runs[r]);
      }
    }
  }

  /** When a submission gets which answer. */
  lemma SubmitIff(s: State, key: Option<string>)
    requires Tables(s)
    ensures Submit(s, key) == NotFound <==> s.session.deleted
    ensures forall r: nat :: Submit(s, key) == Replayed(r) <==>
      !s.session.deleted && key.Some? && key.value != "" && Carries(s.runs, r, key.value)
    ensures Submit(s, key) == Conflict <==>
      !s.session.deleted && !(key != Some("") && Carried(s.runs, key)) && s.session.status != Ready
    ensures forall r: nat :: Submit(s, key) == Created(r) <==>
      !s.session.deleted && s.session.status == Ready && !Waits(s.runs) && !Carried(s.runs, key) && r == |s.runs|
    ensures Submit(s, key) == Rejected <==>
      !s.session.deleted && s.session.status == Ready && !(key != Some("") && Carried(s.runs, key))
      && (Waits(s.runs) || (key == Some("") && Carried(s.runs, key)))
  {
    if key.Some? { KeyIsCarried(s.runs, key.value); }
    ActiveWaits(s.runs);
  }

  /** A submission that is accepted adds one PENDING run with its key and its question, and the session is
      RUNNING; any other one changes nothing. */
  lemma SubmitAdds(s: State, key: Option<string>)
    requires Tables(s)
    ensures Submit(s, key).Created? ==>
      Apply(s, CreateRun(key)) ==
        s.(runs := s.runs + [Run(Pending, key)],
           messages := s.messages + [Message(|s.runs|, User, |s.messages| + 1)],
           session := s.session.(status := Status.Running, version := s.session.version + 1))
    ensures !Submit(s, key).Created? ==> Apply(s, CreateRun(key)) == s
  {
    LargestIsLength(s.messages);
  }

  // ---------- creation ----------

  /** The segment after the provider call: the row gets the runtime and is READY, or it is FAILED; a delete in between stays. */
  lemma CreationEnds(s: State, runtime: RuntimeId)
    requires s.creating
    ensures Apply(s, CreateOk(runtime)) ==
      s.(creating := false, session := s.session.(status := Ready, runtimeId := Some(runtime), version := 2))
    ensures Apply(s, CreateFails) == s.(creating := false, session := s.session.(status := Status.Failed, version := 2))
  {
  }

  // ---------- stop and delete ----------

  ghost predicate Stoppable(row: SessionRow) {
    !row.deleted && (row.status == Ready || row.status == Status.Running || row.status == Stopping
                     || row.status == Status.Failed || row.status == Expired)
  }

  /** A stop begins exactly if the session is not deleted, not in creation and not stopped: it is STOPPING then, and the row is
      remembered. */
  lemma StopBegins(s: State)
    ensures var row := s.session.(status := Stopping, version := s.session.version + 1);
      Apply(s, StopBegin) == if Stoppable(s.session) then s.(session := row, stops := s.stops + multiset{row}) else s
  {
  }

  predicate CancelledOnly(runs: seq<Run>, runs': seq<Run>) {
    && |runs'| == |runs|
    && forall r :: 0 <= r < |runs| ==>
         runs'[r] == if runs[r].status == Pending || runs[r].status == RunStatus.Running
                     then Run(Cancelled, runs[r].key) else runs[r]
  }

  lemma CancelsWaiting(runs: seq<Run>)
    ensures CancelledOnly(runs, CancelActive(runs))
  {
  }

  /** The end of a stop: STOPPED with every waiting run cancelled, or FAILED with the runs left alone; the version is one
      above the one loaded, the binding and a delete in between stay. */
  lemma StopEnds(s: State, row: SessionRow)
    requires Tables(s) && row in s.stops
    ensures var s' := Apply(s, StopOk(row));
      && s' == s.(runs := s'.runs, stops := s.stops - multiset{row},
                  session := s.session.(status := Stopped, version := row.version + 1))
      && CancelledOnly(s.runs, s'.runs)
    ensures Bound(row.runtimeId) ==>
      Apply(s, StopFails(row)) == s.(stops := s.stops - multiset{row},
                                     session := s.session.(status := Status.Failed, version := row.version + 1))
  {
    CancelsWaiting(s.runs);
  }

  /** An operation whose process dies leaves every row, message and event as it is. */
  lemma LossIsSilent(s: State, step: Step)
    requires Enabled(s, step) && (step.CreateLost? || step.StopLost? || step.DeleteLost? || step.ExecLost?)
    ensures var s' := Apply(s, step);
      && s' == s.(creating := s'.creating, stops := s'.stops, deletes := s'.deletes, execs := s'.execs)
      && (s'.creating <==> s.creating && step != CreateLost)
      && (forall row :: s'.stops[row] == s.stops[row] - if step == StopLost(row) then 1 else 0)
      && (forall row :: s'.deletes[row] == s.deletes[row] - if step == DeleteLost(row) then 1 else 0)
      && (forall x :: x in s'.execs <==> x in s.execs && step != ExecLost(x))
      && (forall x :: x in s'.execs ==> s'.execs[x] == s.execs[x])
  {
  }

  /** A stop can fail exactly if it has a runtime to stop. */
  lemma StopFailsIff(s: State, row: SessionRow)
    ensures Enabled(s, StopFails(row)) <==> row in s.stops && row.runtimeId != None && row.runtimeId != Some("")
  {
  }

  /** A delete begins exactly if the session is not deleted, and changes no row. */
  lemma DeleteBegins(s: State)
    ensures Apply(s, DeleteBegin) == if s.session.deleted then s else s.(deletes := s.deletes + multiset{s.session})
  {
  }

  /** Its end marks the row deleted and STOPPED, unless it had loaded it as STOPPED, and cancels every waiting run. */
  lemma DeleteEnds(s: State, row: SessionRow)
    requires row in s.deletes && !row.deleted
    ensures var s' := Apply(s, DeleteOk(row));
      && s' == s.(runs := s'.runs, deletes := s.deletes - multiset{row},
                  session := s.session.(status := if row.status == Stopped then s.session.status else Stopped,
                                        version := row.version + 1, deleted := true))
      && CancelledOnly(s.runs, s'.runs)
  {
    CancelsWaiting(s.runs);
  }

  // ---------- the executor ----------

  /** An executor begins exactly with a PENDING run of a session that is not deleted. */
  lemma ExecutorBegins(s: State, x: ExecId, r: RunId)
    requires Enabled(s, ExecStart(x, r))
    ensures Apply(s, ExecStart(x, r)) ==
      if s.runs[r].status == Pending && !s.session.deleted then
        s.(runs := s.runs[r := Run(RunStatus.Running, s.runs[r].key)],
           session := s.session.(status := Status.Running),
           events := s.events + [RunEvent(r, RunStarted)],
           execs := s.execs[x := Exec(r, Working)])
      else s
  {
  }

  /** The last read ends an executor whose run was cancelled and gives any other one its rows; after an overflow
      the run's worker is left either way. */
  lemma ExecutorLoads(s: State, x: ExecId, ending: Ending)
    requires Enabled(s, Load(x, ending))
    ensures var s', r := Apply(s, Load(x, ending)), s.execs[x].run;
      && s' == s.(execs := s'.execs, leaks := s'.leaks)
      && (x !in s'.execs <==> s.runs[r].status == Cancelled)
      && (forall y :: y in s.execs && y != x <==> y in s'.execs && y != x)
      && (forall y :: y in s.execs && y != x ==> s'.execs[y] == s.execs[y])
      && (x in s'.execs ==> s'.execs[x] == Exec(r, Loaded(ending, s.runs[r].status, s.session, None)))
      && s'.leaks == if ending == Overflow then s.leaks + {r} else s.leaks
  {
  }

  /** The number of an answer is one above those in use. */
  lemma AnswerIsNumbered(s: State, x: ExecId)
    requires Tables(s) && Enabled(s, NumberAnswer(x))
    ensures var s' := Apply(s, NumberAnswer(x));
      && s' == s.(execs := s.execs[x := s'.execs[x]])
      && s'.execs[x] == Exec(s.execs[x].run, Loaded(Success, s.execs[x].phase.status, s.execs[x].phase.row, Some(|s.messages| + 1)))
  {
    LargestIsLength(s.messages);
  }

  /** The final commit: one status, one event, for an answer one message; the session is READY again unless its row was
      loaded as READY, at the version after the one loaded; a stop or a delete in between leaves only its `deleted` mark. */
  lemma ExecutorEnds(s: State, x: ExecId)
    requires Tables(s) && Enabled(s, Finish(x))
    ensures var s', r, loaded := Apply(s, Finish(x)), s.execs[x].run, s.execs[x].phase.row;
      var session := s.session.(status := if loaded.status == Ready then s.session.status else Ready,
                                version := loaded.version + 1);
      s' == if s.execs[x].phase.ending == Success then
              s.(session := session,
                 runs := s.runs[r := Run(RunStatus.Completed, s.runs[r].key)],
                 messages := s.messages + [Message(r, Assistant, |s.messages| + 1)],
                 events := s.events + [RunEvent(r, FinalMessage)],
                 execs := s.execs[x := Exec(r, Completing)])
            else
              s.(session := session,
                 runs := s.runs[r := Run(RunStatus.Failed, s.runs[r].key)],
                 events := s.events + [RunEvent(r, RunFailed)],
                 execs := s.execs - {x})
  {
    if s.execs[x].phase.ending.Success? { UnusedIsNext(s.messages, s.execs[x].phase.sequence.value); LargestIsLength(s.messages); }
  }
}
