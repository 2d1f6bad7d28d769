/** The life of one session: create, run, stop, delete, execute and reconcile interleave at their commits.
    Each operation keeps the row it loaded across its commits, as an ORM session does, and a commit writes
    only the attributes the operation changed. */
module Lifecycle {
  import opened Wrappers
  import opened SessionRows
  import R = Reconciler

  type RunId = nat
  type ExecId = nat

  datatype RunStatus = Pending | Running | Completed | Failed | Cancelled

  datatype Run = Run(status: RunStatus, key: Option<string>)

  datatype Role = User | Assistant

  datatype Message = Message(run: RunId, role: Role, sequence: int)

  /** Events of a run; `Agent` stands for anything the agent emits while it works. */
  datatype Record = RunStarted | Agent | FinalMessage | RunCompleted | RunFailed

  datatype RunEvent = RunEvent(run: RunId, record: Record)

  /** How the agent's run ended. `Overflow` is a failure with the callback buffer full: closing the adapter
      raises as well and leaves its worker alive. */
  datatype Ending = Success | Failure | Overflow

  /** `Loaded` is the window between re-reading the rows and the commit that ends the run; `sequence` is the
      number read for the answer. */
  datatype Phase =
    | Working
    | Loaded(ending: Ending, status: RunStatus, row: SessionRow, sequence: Option<int>)
    | Completing

  datatype Exec = Exec(run: RunId, phase: Phase)

  /** `leaks` are the runs whose callback worker outlived the agent's run. */
  datatype State = State(
    session: SessionRow,
    creating: bool,
    stops: multiset<SessionRow>,
    deletes: multiset<SessionRow>,
    execs: map<ExecId, Exec>,
    leaks: set<RunId>,
    runs: seq<Run>,
    messages: seq<Message>,
    events: seq<RunEvent>)

  datatype Step =
    | CreateOk(runtime: RuntimeId)
    | CreateFails
    | CreateLost
    | CreateRun(key: Option<string>)
    | StopBegin
    | StopOk(row: SessionRow)
    | StopFails(row: SessionRow)
    | StopLost(row: SessionRow)
    | DeleteBegin
    | DeleteOk(row: SessionRow)
    | DeleteLost(row: SessionRow)
    | Reconcile(candidates: seq<R.Runtime>, now: int)
    | ExecStart(exec: ExecId, run: RunId)
    | Emit(exec: ExecId)
    | Load(exec: ExecId, ending: Ending)
    | NumberAnswer(exec: ExecId)
    | Finish(exec: ExecId)
    | Announce(exec: ExecId)
    | ExecLost(exec: ExecId)
    | Drain(run: RunId)
    | DrainStops(run: RunId)

  // ---------- rows ----------

  /** Flush an in-memory row: only attributes that differ from what was loaded are written. */
  function Flush(stored: SessionRow, loaded: SessionRow, row: SessionRow): SessionRow {
    stored.(
      status := if row.status != loaded.status then row.status else stored.status,
      runtimeId := if row.runtimeId != loaded.runtimeId then row.runtimeId else stored.runtimeId,
      version := if row.version != loaded.version then row.version else stored.version,
      deleted := if row.deleted != loaded.deleted then row.deleted else stored.deleted)
  }

  function Moved(row: SessionRow, status: Status): SessionRow {
    row.(status := status, version := row.version + 1)
  }

  predicate ActiveRun(run: Run) {
    run.status.Pending? || run.status.Running?
  }

  predicate NoActiveRun(runs: seq<Run>) {
    forall r :: 0 <= r < |runs| ==> !ActiveRun(runs[r])
  }

  /** UPDATE runs SET status = 'CANCELLED' WHERE status IN ('PENDING', 'RUNNING'). */
  function CancelActive(runs: seq<Run>): (r: seq<Run>)
    ensures |r| == |runs|
    ensures forall i :: 0 <= i < |runs| ==> r[i] == (if ActiveRun(runs[i]) then runs[i].(status := Cancelled) else runs[i])
  {
    seq(|runs|, i requires 0 <= i < |runs| => if ActiveRun(runs[i]) then runs[i].(status := Cancelled) else runs[i])
  }

  function WithStatus(runs: seq<Run>, r: RunId, status: RunStatus): seq<Run>
    requires r < |runs|
  {
    runs[r := runs[r].(status := status)]
  }

  function LargestSequence(messages: seq<Message>): int {
    if messages == [] then 0
    else
      var n := |messages| - 1;
      var rest := LargestSequence(messages[..n]);
      if messages[n].sequence > rest then messages[n].sequence else rest
  }

  function Say(messages: seq<Message>, run: RunId, role: Role): seq<Message> {
    messages + [Message(run, role, LargestSequence(messages) + 1)]
  }

  /** The unique constraint on a session's sequence numbers. */
  predicate Unused(messages: seq<Message>, sequence: int) {
    forall i :: 0 <= i < |messages| ==> messages[i].sequence != sequence
  }

  // ---------- create_run ----------

  datatype Submission = Created(run: RunId) | Replayed(run: RunId) | NotFound | Conflict | Rejected

  function FindKey(runs: seq<Run>, key: string): Option<RunId> {
    if runs == [] then None
    else
      var n := |runs| - 1;
      if FindKey(runs[..n], key).Some? then FindKey(runs[..n], key)
      else if runs[n].key == Some(key) then Some(n)
      else None
  }

  /** The answer of `create_run`; `Rejected` is a violated unique index. */
  function Submit(s: State, key: Option<string>): Submission {
    if s.session.deleted then NotFound
    else if key.Some? && key.value != "" && FindKey(s.runs, key.value).Some? then Replayed(FindKey(s.runs, key.value).value)
    else if !s.session.status.Ready? then Conflict
    else if !NoActiveRun(s.runs) then Rejected
    else if key.Some? && FindKey(s.runs, key.value).Some? then Rejected
    else Created(|s.runs|)
  }

  // ---------- steps ----------

  predicate Enabled(s: State, step: Step) {
    match step
    case CreateOk(_) => s.creating
    case CreateFails => s.creating
    case CreateLost => s.creating
    case CreateRun(_) => true
    case StopBegin => true
    case StopOk(row) => row in s.stops
    case StopFails(row) => row in s.stops && Bound(row.runtimeId)
    case StopLost(row) => row in s.stops
    case DeleteBegin => true
    case DeleteOk(row) => row in s.deletes
    case DeleteLost(row) => row in s.deletes
    case Reconcile(_, _) => true
    case ExecStart(x, r) => x !in s.execs && r < |s.runs|
    case Emit(x) => x in s.execs && s.execs[x].phase.Working?
    case Load(x, ending) => x in s.execs && (ending.Failure? || s.execs[x].phase.Working?) && s.execs[x].run < |s.runs|
    case NumberAnswer(x) => x in s.execs && s.execs[x].phase.Loaded? && s.execs[x].phase.ending.Success?
    case Finish(x) =>
      x in s.execs && s.execs[x].phase.Loaded? && s.execs[x].run < |s.runs| &&
      (s.execs[x].phase.ending.Success? ==>
         s.execs[x].phase.sequence.Some? && Unused(s.messages, s.execs[x].phase.sequence.value))
    case Announce(x) => x in s.execs && s.execs[x].phase.Completing?
    case ExecLost(x) => x in s.execs
    case Drain(r) => r in s.leaks
    case DrainStops(r) => r in s.leaks
  }

  function NewRow(s: State): SessionRow {
    s.session.(status := Creating, runtimeId := None, version := 1, deleted := false)
  }

  function Begin(s: State, x: ExecId, r: RunId): State
    requires r < |s.runs|
  {
    if !s.runs[r].status.Pending? || s.session.deleted then s
    else s.(runs := WithStatus(s.runs, r, RunStatus.Running),
            session := s.session.(status := Status.Running),
            events := s.events + [RunEvent(r, RunStarted)],
            execs := s.execs[x := Exec(r, Working)])
  }

  function Reload(s: State, x: ExecId, ending: Ending): State
    requires x in s.execs && s.execs[x].run < |s.runs|
  {
    var exec := s.execs[x];
    var status := s.runs[exec.run].status;
    s.(execs := if status.Cancelled? then s.execs - {x}
                else s.execs[x := exec.(phase := Loaded(ending, status, s.session, None))],
       leaks := if ending.Overflow? then s.leaks + {exec.run} else s.leaks)
  }

  function Conclude(s: State, x: ExecId): State
    requires Enabled(s, Finish(x))
  {
    var r, loaded := s.execs[x].run, s.execs[x].phase.row;
    var session := Flush(s.session, loaded, Moved(loaded, Ready));
    if s.execs[x].phase.ending.Success? then
      s.(session := session,
         runs := WithStatus(s.runs, r, RunStatus.Completed),
         messages := s.messages + [Message(r, Assistant, s.execs[x].phase.sequence.value)],
         events := s.events + [RunEvent(r, FinalMessage)],
         execs := s.execs[x := Exec(r, Completing)])
    else
      s.(session := session,
         runs := WithStatus(s.runs, r, RunStatus.Failed),
         events := s.events + [RunEvent(r, RunFailed)],
         execs := s.execs - {x})
  }

  function Apply(s: State, step: Step): State
    requires Enabled(s, step)
  {
    match step
    case CreateOk(runtime) =>
      s.(creating := false,
         session := Flush(s.session, NewRow(s), Moved(NewRow(s), Ready).(runtimeId := Some(runtime))))
    case CreateFails => s.(creating := false, session := Flush(s.session, NewRow(s), Moved(NewRow(s), Status.Failed)))
    case CreateLost => s.(creating := false)
    case CreateRun(key) =>
      if Submit(s, key).Created? then
        s.(runs := s.runs + [Run(Pending, key)],
           messages := Say(s.messages, |s.runs|, User),
           session := Moved(s.session, Status.Running))
      else s
    case StopBegin =>
      if s.session.deleted || s.session.status.Stopped? || s.session.status.Creating? then s
      else s.(session := Moved(s.session, Stopping), stops := s.stops + multiset{Moved(s.session, Stopping)})
    case StopOk(row) =>
      s.(stops := s.stops - multiset{row},
         runs := CancelActive(s.runs),
         session := Flush(s.session, row, Moved(row, Stopped)))
    case StopFails(row) =>
      s.(stops := s.stops - multiset{row}, session := Flush(s.session, row, Moved(row, Status.Failed)))
    case StopLost(row) => s.(stops := s.stops - multiset{row})
    case DeleteBegin => if s.session.deleted then s else s.(deletes := s.deletes + multiset{s.session})
    case DeleteOk(row) =>
      s.(deletes := s.deletes - multiset{row},
         runs := CancelActive(s.runs),
         session := Flush(s.session, row, Moved(row, Stopped).(deleted := true)))
    case DeleteLost(row) => s.(deletes := s.deletes - multiset{row})
    case Reconcile(candidates, now) => s.(session := R.ReconcileRow(s.session, candidates, now))
    case ExecStart(x, r) => Begin(s, x, r)
    case Emit(x) => s.(events := s.events + [RunEvent(s.execs[x].run, Agent)])
    case Load(x, ending) => Reload(s, x, ending)
    case NumberAnswer(x) =>
      var exec := s.execs[x];
      s.(execs := s.execs[x := exec.(phase := exec.phase.(sequence := Some(LargestSequence(s.messages) + 1)))])
    case Finish(x) => Conclude(s, x)
    case Announce(x) =>
      s.(events := s.events + [RunEvent(s.execs[x].run, RunCompleted)], execs := s.execs - {x})
    case ExecLost(x) => s.(execs := s.execs - {x})
    case Drain(r) => s.(events := s.events + [RunEvent(r, Agent)])
    case DrainStops(r) => s.(leaks := s.leaks - {r})
  }

  // ---------- runs of the system ----------

  function Initial(id: SessionId, expiresAt: int): State {
    State(SessionRow(id, Creating, None, 1, expiresAt, false), true, multiset{}, multiset{}, map[], {}, [], [], [])
  }

  datatype Reached = Stuck | At(state: State)

  function Follow(s: State, steps: seq<Step>): Reached {
    if steps == [] then At(s)
    else
      var n := |steps| - 1;
      match Follow(s, steps[..n])
      case Stuck => Stuck
      case At(t) => if Enabled(t, steps[n]) then At(Apply(t, steps[n])) else Stuck
  }

  /** An executor commits the end of a run that is no longer active: it was cancelled between the
      executor's last read and its commit, or had already been completed. */
  predicate Late(s: State, step: Step) {
    step.Finish? && step.exec in s.execs && s.execs[step.exec].run < |s.runs|
    && !ActiveRun(s.runs[s.execs[step.exec].run])
  }

  /** The handler of an exception raised after the commit of COMPLETED ends the run once more. */
  predicate AfterCompletion(s: State, step: Step) {
    step.Finish? && step.exec in s.execs && s.execs[step.exec].run < |s.runs|
    && s.runs[s.execs[step.exec].run].status.Completed?
  }

  /** A worker that outlived its run appends to the log of a failed run. */
  predicate DrainsFailed(s: State, step: Step) {
    step.Drain? && step.run < |s.runs| && s.runs[step.run].status.Failed?
  }

  predicate BreaksLog(s: State, step: Step) {
    AfterCompletion(s, step) || DrainsFailed(s, step)
  }

  /** The answer of a run is committed when a newer run has already asked. */
  predicate AnswersOld(s: State, step: Step) {
    step.Finish? && step.exec in s.execs && s.execs[step.exec].phase.Loaded?
    && s.execs[step.exec].phase.ending.Success? && s.execs[step.exec].run < |s.runs| - 1
  }

  predicate Misplaces(s: State, step: Step) {
    AfterCompletion(s, step) || AnswersOld(s, step)
  }

  /** The reconciler changes the row of a session whose `create_session` has not returned. */
  predicate Meddles(s: State, step: Step) {
    step.Reconcile? && s.creating && R.ReconcileRow(s.session, step.candidates, step.now) != s.session
  }

  /** No step of a run is of the given kind. */
  predicate Never(kind: (State, Step) -> bool, s: State, steps: seq<Step>) {
    steps == [] ||
    (var n := |steps| - 1;
     Never(kind, s, steps[..n]) &&
     (Follow(s, steps[..n]).At? ==> !kind(Follow(s, steps[..n]).state, steps[n])))
  }

  predicate Prompt(s: State, steps: seq<Step>) {
    Never(Late, s, steps)
  }

  predicate Unmeddled(s: State, steps: seq<Step>) {
    Never(Meddles, s, steps)
  }
}
