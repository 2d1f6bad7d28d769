/** The commit-to-commit segments of the session service and the run executor, updating the tables in
    place, each proved to be the step of Lifecycle it stands for. */
module ControlPlane {
  import opened Wrappers
  import opened SessionRows
  import opened Lifecycle

  lemma AfterDelete(s: State, loaded: SessionRow, row: SessionRow)
    requires loaded in s.deletes
    requires row == loaded.(status := Stopped, deleted := true, version := loaded.version + 1)
    ensures Apply(s, DeleteOk(loaded)) ==
      State(Flush(s.session, loaded, row), s.creating, s.stops, s.deletes - multiset{loaded}, s.execs, s.leaks, CancelActive(s.runs),
            s.messages, s.events)
  {
  }

  lemma AfterStop(s: State, loaded: SessionRow, row: SessionRow)
    requires loaded in s.stops
    requires row == loaded.(status := Stopped, version := loaded.version + 1)
    ensures Apply(s, StopOk(loaded)) ==
      State(Flush(s.session, loaded, row), s.creating, s.stops - multiset{loaded}, s.deletes, s.execs, s.leaks, CancelActive(s.runs),
            s.messages, s.events)
  {
  }

  lemma AfterFailedStop(s: State, loaded: SessionRow, row: SessionRow)
    requires loaded in s.stops && Bound(loaded.runtimeId)
    requires row == loaded.(status := Status.Failed, version := loaded.version + 1)
    ensures Apply(s, StopFails(loaded)) ==
      State(Flush(s.session, loaded, row), s.creating, s.stops - multiset{loaded}, s.deletes, s.execs, s.leaks, s.runs,
            s.messages, s.events)
  {
  }

  class ControlPlane {
    var session: SessionRow
    var creating: bool
    var stops: multiset<SessionRow>
    var deletes: multiset<SessionRow>
    var execs: map<ExecId, Exec>
    var leaks: set<RunId>
    var runs: seq<Run>
    var messages: seq<Message>
    var events: seq<RunEvent>

    function View(): State
      reads this
    {
      State(session, creating, stops, deletes, execs, leaks, runs, messages, events)
    }

    /** `create_session` up to its first commit. */
    constructor (id: SessionId, expiresAt: int)
      ensures View() == Initial(id, expiresAt)
    {
      session := SessionRow(id, Creating, None, 1, expiresAt, false);
      creating, stops, deletes := true, multiset{}, multiset{};
      execs, leaks, runs, messages, events := map[], {}, [], [], [];
    }

    /** UPDATE of the changed attributes of a loaded row. */
    method Commit(loaded: SessionRow, row: SessionRow)
      modifies this`session
      ensures session == Flush(old(session), loaded, row)
    {
      if row.status != loaded.status { session := session.(status := row.status); }
      if row.runtimeId != loaded.runtimeId { session := session.(runtimeId := row.runtimeId); }
      if row.version != loaded.version { session := session.(version := row.version); }
      if row.deleted != loaded.deleted { session := session.(deleted := row.deleted); }
    }

    /** `create_session` after the provider has answered. */
    method FinishCreate(handle: Option<RuntimeId>)
      requires creating
      modifies this
      ensures View() == Apply(old(View()), match handle case Some(id) => CreateOk(id) case None => CreateFails)
    {
      var loaded := NewRow(View());
      var row := loaded;
      match handle {
        case None =>
          row := row.(status := Status.Failed);
        case Some(id) =>
          row := row.(runtimeId := Some(id));
          row := row.(status := Ready);
      }
      row := row.(version := row.version + 1);
      Commit(loaded, row);
      creating := false;
    }

    /** SELECT ... WHERE idempotency_key = key. */
    method FindByKey(key: string) returns (found: Option<RunId>)
      ensures found == FindKey(runs, key)
    {
      found := None;
      var i := 0;
      while i < |runs|
        invariant 0 <= i <= |runs|
        invariant found == FindKey(runs[..i], key)
      {
        assert runs[..i + 1][..i] == runs[..i];
        if found.None? && runs[i].key == Some(key) { found := Some(i); }
        i := i + 1;
      }
      assert runs[..|runs|] == runs;
    }

    /** max(sequence) + 1. */
    method NextMessageSequence() returns (next: int)
      ensures next == LargestSequence(messages) + 1
    {
      var current, i := 0, 0;
      while i < |messages|
        invariant 0 <= i <= |messages|
        invariant current == LargestSequence(messages[..i])
      {
        assert messages[..i + 1][..i] == messages[..i];
        if messages[i].sequence > current { current := messages[i].sequence; }
        i := i + 1;
      }
      assert messages[..|messages|] == messages;
      next := current + 1;
    }

    /** The partial unique index on active runs. */
    method HasActive() returns (active: bool)
      ensures active <==> !NoActiveRun(runs)
    {
      active := false;
      var i := 0;
      while i < |runs|
        invariant 0 <= i <= |runs|
        invariant active <==> !NoActiveRun(runs[..i])
      {
        if ActiveRun(runs[i]) { active := true; }
        assert runs[..i + 1] == runs[..i] + [runs[i]];
        assert forall r :: 0 <= r < i ==> runs[..i][r] == runs[r] && runs[..i + 1][r] == runs[r];
        i := i + 1;
      }
      assert runs[..|runs|] == runs;
    }

    /** What the checks of `create_run` and the unique indexes say of a submission. */
    method CheckSubmission(key: Option<string>) returns (answer: Submission)
      ensures answer == Submit(View(), key)
    {
      if session.deleted { return NotFound; }
      if key.Some? && key.value != "" {
        var existing := FindByKey(key.value);
        if existing.Some? { return Replayed(existing.value); }
      }
      if !session.status.Ready? { return Conflict; }
      var active := HasActive();
      if active { return Rejected; }
      if key.Some? {
        var duplicate := FindByKey(key.value);
        if duplicate.Some? { return Rejected; }
      }
      answer := Created(|runs|);
    }

    /** `create_run`, one transaction under the session's row lock; a violated unique index rolls it back. */
    method CreateRun(key: Option<string>) returns (answer: Submission)
      modifies this
      ensures answer == Submit(old(View()), key)
      ensures View() == Apply(old(View()), Step.CreateRun(key))
    {
      answer := CheckSubmission(key);
      if !answer.Created? { return; }
      var sequence := NextMessageSequence();
      messages := messages + [Message(|runs|, User, sequence)];
      runs := runs + [Run(Pending, key)];
      session := session.(status := Status.Running);
      session := session.(version := session.version + 1);
    }

    /** `stop_session` up to its first commit. */
    method BeginStop()
      modifies this
      ensures View() == Apply(old(View()), StopBegin)
    {
      if session.deleted || session.status.Stopped? || session.status.Creating? { return; }
      session := session.(status := Stopping);
      session := session.(version := session.version + 1);
      stops := stops + multiset{session};
    }

    /** `stop_session` after the provider has stopped the runtime, with the row it loaded before. */
    method FinishStop(loaded: SessionRow)
      requires loaded in stops
      modifies this
      ensures View() == Apply(old(View()), StopOk(loaded))
    {
      ghost var was := View();
      stops := stops - multiset{loaded};
      CancelActiveRuns();
      var row := loaded.(status := Stopped);
      row := row.(version := row.version + 1);
      Commit(loaded, row);
      AfterStop(was, loaded, row);
    }

    /** `stop_session` after the provider has raised: active runs are left alone. */
    method FailStop(loaded: SessionRow)
      requires loaded in stops && Bound(loaded.runtimeId)
      modifies this
      ensures View() == Apply(old(View()), StopFails(loaded))
    {
      ghost var was := View();
      stops := stops - multiset{loaded};
      var row := loaded.(status := Status.Failed);
      row := row.(version := row.version + 1);
      Commit(loaded, row);
      AfterFailedStop(was, loaded, row);
    }

    method CancelActiveRuns()
      modifies this`runs
      ensures runs == CancelActive(old(runs))
    {
      var i := 0;
      while i < |runs|
        invariant 0 <= i <= |runs| == |old(runs)|
        invariant forall r :: 0 <= r < i ==> runs[r] == CancelActive(old(runs))[r]
        invariant forall r :: i <= r < |runs| ==> runs[r] == old(runs)[r]
      {
        if runs[i].status.Pending? || runs[i].status.Running? {
          runs := runs[i := runs[i].(status := Cancelled)];
        }
        i := i + 1;
      }
    }

    method BeginDelete()
      modifies this
      ensures View() == Apply(old(View()), DeleteBegin)
    {
      if !session.deleted { deletes := deletes + multiset{session}; }
    }

    /** `delete_session` after the runtime is gone. */
    method FinishDelete(loaded: SessionRow)
      requires loaded in deletes
      modifies this
      ensures View() == Apply(old(View()), DeleteOk(loaded))
    {
      ghost var was := View();
      deletes := deletes - multiset{loaded};
      CancelActiveRuns();
      var row := loaded.(status := Stopped);
      row := row.(deleted := true);
      row := row.(version := row.version + 1);
      Commit(loaded, row);
      AfterDelete(was, loaded, row);
    }

    /** The start of `execute`, under the run's row lock, to the commit that appends RUN_STARTED. */
    method Start(exec: ExecId, run: RunId) returns (started: bool)
      requires exec !in execs && run < |runs|
      modifies this
      ensures View() == Apply(old(View()), ExecStart(exec, run))
      ensures started <==> old(runs)[run].status.Pending? && !old(session).deleted
    {
      if !runs[run].status.Pending? || session.deleted { return false; }
      runs := runs[run := runs[run].(status := RunStatus.Running)];
      session := session.(status := Status.Running);
      events := events + [RunEvent(run, RunStarted)];
      execs := execs[exec := Exec(run, Working)];
      started := true;
    }

    /** Re-reading the run and the session, after the agent has returned or raised. After an overflow the
        callback worker is still there. */
    method LoadRows(exec: ExecId, ending: Ending) returns (cancelled: bool)
      requires exec in execs && execs[exec].run < |runs| && (ending.Failure? || execs[exec].phase.Working?)
      modifies this
      ensures View() == Apply(old(View()), Load(exec, ending))
      ensures cancelled <==> exec !in execs
    {
      var run := execs[exec].run;
      if ending.Overflow? { leaks := leaks + {run}; }
      var status := runs[run].status;
      cancelled := status.Cancelled?;
      if cancelled {
        execs := execs - {exec};
      } else {
        execs := execs[exec := Exec(run, Loaded(ending, status, session, None))];
      }
    }

    /** Reading the next message number for the answer. */
    method ReadSequence(exec: ExecId)
      requires exec in execs && execs[exec].phase.Loaded? && execs[exec].phase.ending.Success?
      modifies this
      ensures View() == Apply(old(View()), NumberAnswer(exec))
    {
      var next := NextMessageSequence();
      execs := execs[exec := execs[exec].(phase := execs[exec].phase.(sequence := Some(next)))];
    }

    /** The unique constraint on message numbers. */
    method SequenceUnused(sequence: int) returns (unused: bool)
      ensures unused <==> Unused(messages, sequence)
    {
      unused := true;
      var i := 0;
      while i < |messages|
        invariant 0 <= i <= |messages|
        invariant unused <==> forall k :: 0 <= k < i ==> messages[k].sequence != sequence
      {
        if messages[i].sequence == sequence { unused := false; }
        i := i + 1;
      }
    }

    /** The commit that completes a run, from the rows and the number read before. A number taken in the
        meantime makes it fail and changes nothing. */
    method CompleteRun(exec: ExecId) returns (committed: bool)
      requires exec in execs && execs[exec].run < |runs|
      requires execs[exec].phase.Loaded? && execs[exec].phase.ending.Success? && execs[exec].phase.sequence.Some?
      modifies this
      ensures committed <==> Enabled(old(View()), Finish(exec))
      ensures View() == if committed then Apply(old(View()), Finish(exec)) else old(View())
    {
      var run, loaded, sequence := execs[exec].run, execs[exec].phase.row, execs[exec].phase.sequence.value;
      committed := SequenceUnused(sequence);
      if !committed { return; }
      messages := messages + [Message(run, Assistant, sequence)];
      runs := runs[run := runs[run].(status := RunStatus.Completed)];
      var row := loaded.(status := Ready);
      row := row.(version := row.version + 1);
      Commit(loaded, row);
      events := events + [RunEvent(run, FinalMessage)];
      execs := execs[exec := Exec(run, Completing)];
    }

    /** The commit of the exception handler. */
    method FailRun(exec: ExecId)
      requires exec in execs && execs[exec].run < |runs|
      requires execs[exec].phase.Loaded? && !execs[exec].phase.ending.Success?
      modifies this
      ensures View() == Apply(old(View()), Finish(exec))
    {
      var run, loaded := execs[exec].run, execs[exec].phase.row;
      runs := runs[run := runs[run].(status := RunStatus.Failed)];
      var row := loaded.(status := Ready);
      row := row.(version := row.version + 1);
      Commit(loaded, row);
      events := events + [RunEvent(run, RunFailed)];
      execs := execs - {exec};
    }

    /** `PersistentEventSink.emit` while the agent works, and the append of RUN_COMPLETED. */
    method Append(exec: ExecId)
      requires exec in execs && !execs[exec].phase.Loaded?
      modifies this
      ensures View() == Apply(old(View()), if old(execs)[exec].phase.Working? then Emit(exec) else Announce(exec))
    {
      var run := execs[exec].run;
      if execs[exec].phase.Working? {
        events := events + [RunEvent(run, Agent)];
      } else {
        events := events + [RunEvent(run, RunCompleted)];
        execs := execs - {exec};
      }
    }

    /** The worker that outlived its run goes on emitting. */
    method DrainLeft(run: RunId)
      requires run in leaks
      modifies this
      ensures View() == Apply(old(View()), Drain(run))
    {
      events := events + [RunEvent(run, Agent)];
    }
  }
}
