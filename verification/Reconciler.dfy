/** The runtime reconciler: one pass over all sessions and labelled runtimes, with deletes that may fail. */
module Reconciler {
  import opened Wrappers
  import opened SessionRows

  datatype Runtime = Runtime(runtimeId: RuntimeId, session: SessionId, status: string)

  const RUNNING: string := "running"

  predicate Active(status: Status) {
    status.Creating? || status.Ready? || status.Running? || status.Stopping?
  }

  ghost predicate DistinctRuntimes(runtimes: seq<Runtime>) {
    forall i, j :: 0 <= i < j < |runtimes| ==> runtimes[i].runtimeId != runtimes[j].runtimeId
  }

  ghost predicate DistinctSessions(sessions: seq<SessionRow>) {
    forall i, j :: 0 <= i < j < |sessions| ==> sessions[i].id != sessions[j].id
  }

  // ---------- one session ----------

  function FindRuntime(candidates: seq<Runtime>, id: RuntimeId): Option<Runtime> {
    if candidates == [] then None
    else if candidates[0].runtimeId == id then Some(candidates[0])
    else FindRuntime(candidates[1..], id)
  }

  /** The bound runtime if it is a candidate, otherwise the first candidate. */
  function SelectRuntime(runtimeId: Option<RuntimeId>, candidates: seq<Runtime>): Option<Runtime> {
    if Bound(runtimeId) && FindRuntime(candidates, runtimeId.value).Some? then FindRuntime(candidates, runtimeId.value)
    else if candidates == [] then None
    else Some(candidates[0])
  }

  function SetStatus(row: SessionRow, status: Status): SessionRow {
    row.(status := status, version := row.version + 1)
  }

  function Bind(row: SessionRow, id: RuntimeId): SessionRow {
    if row.runtimeId == Some(id) then row
    else row.(runtimeId := Some(id), version := row.version + 1)
  }

  /** The effect of a pass on one session row. */
  function ReconcileRow(row: SessionRow, candidates: seq<Runtime>, now: int): SessionRow {
    if row.deleted then row
    else if row.expiresAt <= now then (if row.status.Expired? then row else SetStatus(row, Expired))
    else if !Active(row.status) then row
    else
      match SelectRuntime(row.runtimeId, candidates)
      case None => if row.status.Creating? then row else SetStatus(row, Failed)
      case Some(selected) =>
        var bound := Bind(row, selected.runtimeId);
        if selected.status == RUNNING then (if row.status.Creating? then SetStatus(bound, Ready) else bound)
        else if row.status.Stopping? then SetStatus(bound, Stopped)
        else SetStatus(bound, Failed)
  }

  // ---------- a whole pass ----------

  function Candidates(runtimes: seq<Runtime>, session: SessionId): (r: seq<Runtime>)
    ensures forall x :: x in r <==> x in runtimes && x.session == session
  {
    if runtimes == [] then []
    else
      var rest := Candidates(runtimes[1..], session);
      assert runtimes == [runtimes[0]] + runtimes[1..];
      if runtimes[0].session == session then [runtimes[0]] + rest else rest
  }

  function FindRow(sessions: seq<SessionRow>, id: SessionId): Option<SessionRow> {
    if sessions == [] then None
    else if sessions[0].id == id then Some(sessions[0])
    else FindRow(sessions[1..], id)
  }

  /** Whether a pass tries to delete a runtime carrying the label of `row`. */
  predicate DoomedFor(row: SessionRow, candidates: seq<Runtime>, now: int, r: Runtime) {
    || row.expiresAt <= now
    || (Active(row.status) &&
        (var selected := SelectRuntime(row.runtimeId, candidates);
         selected.None? || selected.value.runtimeId != r.runtimeId))
  }

  predicate Doomed(sessions: seq<SessionRow>, runtimes: seq<Runtime>, now: int, r: Runtime) {
    match FindRow(sessions, r.session)
    case None => true
    case Some(row) => row.deleted || DoomedFor(row, Candidates(runtimes, r.session), now, r)
  }

  function DoomedIds(sessions: seq<SessionRow>, runtimes: seq<Runtime>, now: int): set<RuntimeId> {
    set r | r in runtimes && Doomed(sessions, runtimes, now, r) :: r.runtimeId
  }

  function Without(runtimes: seq<Runtime>, ids: set<RuntimeId>): (r: seq<Runtime>)
    ensures forall x :: x in r <==> x in runtimes && x.runtimeId !in ids
  {
    if runtimes == [] then []
    else
      var rest := Without(runtimes[1..], ids);
      assert runtimes == [runtimes[0]] + runtimes[1..];
      if runtimes[0].runtimeId in ids then rest else [runtimes[0]] + rest
  }

  function ReconcileRows(sessions: seq<SessionRow>, runtimes: seq<Runtime>, now: int): seq<SessionRow> {
    if sessions == [] then []
    else [ReconcileRow(sessions[0], Candidates(runtimes, sessions[0].id), now)]
         + ReconcileRows(sessions[1..], runtimes, now)
  }

  /** The runtimes left after a pass in which the deletes of `failing` fail. */
  function Survivors(sessions: seq<SessionRow>, runtimes: seq<Runtime>, now: int, failing: set<RuntimeId>): seq<Runtime> {
    Without(runtimes, DoomedIds(sessions, runtimes, now) - failing)
  }

  // ---------- selection under deletion ----------

  lemma {:induction false} WithoutDistinct(runtimes: seq<Runtime>, ids: set<RuntimeId>)
    requires DistinctRuntimes(runtimes)
    ensures DistinctRuntimes(Without(runtimes, ids))
  {
    if runtimes != [] {
      WithoutDistinct(runtimes[1..], ids);
      var rest := Without(runtimes[1..], ids);
      forall i | 0 <= i < |rest| ensures rest[i].runtimeId != runtimes[0].runtimeId {
        assert rest[i] in runtimes[1..];
      }
    }
  }

  lemma {:induction false} CandidatesWithout(runtimes: seq<Runtime>, ids: set<RuntimeId>, session: SessionId)
    ensures Candidates(Without(runtimes, ids), session) == Without(Candidates(runtimes, session), ids)
  {
    if runtimes != [] {
      CandidatesWithout(runtimes[1..], ids, session);
      var head, tail := runtimes[0], Without(runtimes[1..], ids);
      assert ([head] + tail)[1..] == tail;
      var mine := Candidates(runtimes[1..], session);
      assert ([head] + mine)[1..] == mine;
    }
  }

  lemma {:induction false} CandidatesDistinct(runtimes: seq<Runtime>, session: SessionId)
    requires DistinctRuntimes(runtimes)
    ensures DistinctRuntimes(Candidates(runtimes, session))
  {
    if runtimes != [] {
      CandidatesDistinct(runtimes[1..], session);
      var rest := Candidates(runtimes[1..], session);
      forall i | 0 <= i < |rest| ensures rest[i].runtimeId != runtimes[0].runtimeId {
        assert rest[i] in runtimes[1..];
      }
    }
  }

  lemma {:induction false} FindMember(candidates: seq<Runtime>, r: Runtime)
    requires DistinctRuntimes(candidates) && r in candidates
    ensures FindRuntime(candidates, r.runtimeId) == Some(r)
  {
    if candidates[0] != r {
      assert r in candidates[1..];
      var i :| 0 <= i < |candidates[1..]| && candidates[1..][i] == r;
      assert candidates[i + 1] == r;
      FindMember(candidates[1..], r);
    }
  }

  lemma {:induction false} FoundIsMember(candidates: seq<Runtime>, id: RuntimeId)
    ensures FindRuntime(candidates, id).Some? ==>
      FindRuntime(candidates, id).value in candidates && FindRuntime(candidates, id).value.runtimeId == id
  {
    if candidates != [] && candidates[0].runtimeId != id { FoundIsMember(candidates[1..], id); }
  }

  lemma SelectedIsCandidate(runtimeId: Option<RuntimeId>, candidates: seq<Runtime>)
    ensures SelectRuntime(runtimeId, candidates).None? <==> candidates == []
    ensures candidates != [] ==> SelectRuntime(runtimeId, candidates).value in candidates
  {
    if Bound(runtimeId) { FoundIsMember(candidates, runtimeId.value); }
  }

  /** A selected runtime that survives is selected again once the session is bound to it. */
  lemma SelectionIsStable(runtimeId: Option<RuntimeId>, candidates: seq<Runtime>, ids: set<RuntimeId>)
    requires DistinctRuntimes(candidates) && candidates != []
    requires SelectRuntime(runtimeId, candidates).value.runtimeId !in ids
    ensures var selected := SelectRuntime(runtimeId, candidates);
      SelectRuntime(Some(selected.value.runtimeId), Without(candidates, ids)) == selected
  {
    SelectedIsCandidate(runtimeId, candidates);
    var selected := SelectRuntime(runtimeId, candidates).value;
    WithoutDistinct(candidates, ids);
    FindMember(Without(candidates, ids), selected);
    if selected.runtimeId == "" {
      if Bound(runtimeId) { FoundIsMember(candidates, runtimeId.value); }
      assert selected == candidates[0];
    }
  }

  // ---------- rows of a pass ----------

  lemma {:induction false} RowsAt(sessions: seq<SessionRow>, runtimes: seq<Runtime>, now: int)
    ensures |ReconcileRows(sessions, runtimes, now)| == |sessions|
    ensures forall i :: 0 <= i < |sessions| ==>
      ReconcileRows(sessions, runtimes, now)[i] == ReconcileRow(sessions[i], Candidates(runtimes, sessions[i].id), now)
  {
    if sessions != [] { RowsAt(sessions[1..], runtimes, now); }
  }

  lemma {:induction false} FindAt(sessions: seq<SessionRow>, i: nat)
    requires DistinctSessions(sessions) && i < |sessions|
    ensures FindRow(sessions, sessions[i].id) == Some(sessions[i])
  {
    if i > 0 { FindAt(sessions[1..], i - 1); }
  }

  lemma {:induction false} FindReconciled(sessions: seq<SessionRow>, runtimes: seq<Runtime>, now: int, id: SessionId)
    ensures FindRow(ReconcileRows(sessions, runtimes, now), id) ==
      match FindRow(sessions, id)
      case None => None
      case Some(row) => Some(ReconcileRow(row, Candidates(runtimes, id), now))
  {
    if sessions != [] {
      FindReconciled(sessions[1..], runtimes, now, id);
      var rest := ReconcileRows(sessions[1..], runtimes, now);
      var head := ReconcileRow(sessions[0], Candidates(runtimes, sessions[0].id), now);
      assert ([head] + rest)[1..] == rest;
    }
  }

  lemma {:induction false} FoundRow(sessions: seq<SessionRow>, id: SessionId)
    ensures FindRow(sessions, id).Some? ==> FindRow(sessions, id).value in sessions && FindRow(sessions, id).value.id == id
  {
    if sessions != [] && sessions[0].id != id { FoundRow(sessions[1..], id); }
  }

  /** A row is changed exactly when its version is, and versions never go down. */
  lemma VersionTellsChange(row: SessionRow, candidates: seq<Runtime>, now: int)
    ensures var row' := ReconcileRow(row, candidates, now);
      && row.version <= row'.version <= row.version + 2
      && (row' == row <==> row'.version == row.version)
      && row'.id == row.id && row'.deleted == row.deleted && row'.expiresAt == row.expiresAt
  {
  }

  // ---------- convergence ----------

  /** The deletions of a pass never hit the runtime it selected for a live session. */
  lemma SelectedIsKept(sessions: seq<SessionRow>, runtimes: seq<Runtime>, now: int, row: SessionRow)
    requires DistinctRuntimes(runtimes) && FindRow(sessions, row.id) == Some(row)
    requires !row.deleted && now < row.expiresAt && Active(row.status)
    requires Candidates(runtimes, row.id) != []
    ensures SelectRuntime(row.runtimeId, Candidates(runtimes, row.id)).value.runtimeId
            !in DoomedIds(sessions, runtimes, now)
  {
    var candidates := Candidates(runtimes, row.id);
    SelectedIsCandidate(row.runtimeId, candidates);
    var selected := SelectRuntime(row.runtimeId, candidates).value;
    forall r | r in runtimes && r.runtimeId == selected.runtimeId ensures !Doomed(sessions, runtimes, now, r) {
      SameRuntime(runtimes, r, selected);
    }
  }

  lemma SameRuntime(runtimes: seq<Runtime>, a: Runtime, b: Runtime)
    requires DistinctRuntimes(runtimes) && a in runtimes && b in runtimes && a.runtimeId == b.runtimeId
    ensures a == b
  {
    var i :| 0 <= i < |runtimes| && runtimes[i] == a;
    var j :| 0 <= j < |runtimes| && runtimes[j] == b;
  }

  lemma RowIsFixed(row: SessionRow, candidates: seq<Runtime>, ids: set<RuntimeId>, now: int)
    requires DistinctRuntimes(candidates)
    requires candidates != [] && !row.deleted && now < row.expiresAt && Active(row.status) ==>
      SelectRuntime(row.runtimeId, candidates).value.runtimeId !in ids
    ensures var row' := ReconcileRow(row, candidates, now);
      ReconcileRow(row', Without(candidates, ids), now) == row'
  {
    if !row.deleted && now < row.expiresAt && Active(row.status) {
      SelectedIsCandidate(row.runtimeId, candidates);
      if candidates != [] { SelectionIsStable(row.runtimeId, candidates, ids); }
    }
  }

  /** Whatever subset of the deletes failed, one pass brings every session row to a fixpoint:
      a second pass at the same time changes no status, no binding and no version. */
  lemma SessionsConverge(sessions: seq<SessionRow>, runtimes: seq<Runtime>, now: int, failing: set<RuntimeId>)
    requires DistinctSessions(sessions) && DistinctRuntimes(runtimes)
    ensures var sessions' := ReconcileRows(sessions, runtimes, now);
      var runtimes' := Survivors(sessions, runtimes, now, failing);
      ReconcileRows(sessions', runtimes', now) == sessions'
  {
    var sessions' := ReconcileRows(sessions, runtimes, now);
    var gone := DoomedIds(sessions, runtimes, now) - failing;
    var runtimes' := Without(runtimes, gone);
    RowsAt(sessions, runtimes, now);
    RowsAt(sessions', runtimes', now);
    forall i | 0 <= i < |sessions| ensures ReconcileRows(sessions', runtimes', now)[i] == sessions'[i] {
      var row := sessions[i];
      var candidates := Candidates(runtimes, row.id);
      FindAt(sessions, i);
      CandidatesDistinct(runtimes, row.id);
      CandidatesWithout(runtimes, gone, row.id);
      if candidates != [] && !row.deleted && now < row.expiresAt && Active(row.status) {
        SelectedIsKept(sessions, runtimes, now, row);
      }
      RowIsFixed(row, candidates, gone, now);
      VersionTellsChange(row, candidates, now);
    }
  }

  /** The pass ends the session of `r`: it was live, and its selected runtime is not running. */
  predicate Settled(sessions: seq<SessionRow>, runtimes: seq<Runtime>, now: int, r: Runtime) {
    match FindRow(sessions, r.session)
    case None => false
    case Some(row) =>
      var selected := SelectRuntime(row.runtimeId, Candidates(runtimes, r.session));
      !row.deleted && now < row.expiresAt && Active(row.status) && selected.Some? && selected.value.status != RUNNING
  }

  lemma DoomedForAgain(row: SessionRow, candidates: seq<Runtime>, ids: set<RuntimeId>, now: int, r: Runtime)
    requires DistinctRuntimes(candidates) && r in candidates && !row.deleted
    requires now < row.expiresAt && Active(row.status) ==> SelectRuntime(row.runtimeId, candidates).value.runtimeId !in ids
    ensures var ended := now < row.expiresAt && Active(row.status)
                         && SelectRuntime(row.runtimeId, candidates).value.status != RUNNING;
      DoomedFor(ReconcileRow(row, candidates, now), Without(candidates, ids), now, r) ==
      (DoomedFor(row, candidates, now, r) && !ended)
  {
    SelectedIsCandidate(row.runtimeId, candidates);
    if now < row.expiresAt && Active(row.status) { SelectionIsStable(row.runtimeId, candidates, ids); }
  }

  /** What the next pass tries to delete: what this one tried and failed to delete, except the runtimes
      of sessions this pass has ended. */
  lemma DoomedAgain(sessions: seq<SessionRow>, runtimes: seq<Runtime>, now: int, failing: set<RuntimeId>, r: Runtime)
    requires DistinctSessions(sessions) && DistinctRuntimes(runtimes)
    requires r in Survivors(sessions, runtimes, now, failing)
    ensures var sessions' := ReconcileRows(sessions, runtimes, now);
      Doomed(sessions', Survivors(sessions, runtimes, now, failing), now, r) ==
      (Doomed(sessions, runtimes, now, r) && !Settled(sessions, runtimes, now, r))
  {
    var gone := DoomedIds(sessions, runtimes, now) - failing;
    FindReconciled(sessions, runtimes, now, r.session);
    FoundRow(sessions, r.session);
    if FindRow(sessions, r.session).Some? && !FindRow(sessions, r.session).value.deleted {
      var row := FindRow(sessions, r.session).value;
      var candidates := Candidates(runtimes, r.session);
      assert r in candidates;
      CandidatesDistinct(runtimes, r.session);
      CandidatesWithout(runtimes, gone, r.session);
      if now < row.expiresAt && Active(row.status) { SelectedIsKept(sessions, runtimes, now, row); }
      SelectedIsCandidate(row.runtimeId, candidates);
      DoomedForAgain(row, candidates, gone, now, r);
    }
  }

  lemma {:induction false} WithoutNone(runtimes: seq<Runtime>, ids: set<RuntimeId>)
    requires forall r :: r in runtimes ==> r.runtimeId !in ids
    ensures Without(runtimes, ids) == runtimes
  {
    if runtimes != [] {
      assert forall r :: r in runtimes[1..] ==> r in runtimes;
      WithoutNone(runtimes[1..], ids);
      assert runtimes == [runtimes[0]] + runtimes[1..];
    }
  }

  /** The runtime set only shrinks, and when every delete of a pass succeeded a second pass at the same
      time changes nothing at all, whatever would fail in it. */
  lemma CleanPassIsFinal(sessions: seq<SessionRow>, runtimes: seq<Runtime>, now: int, failing: set<RuntimeId>)
    requires DistinctSessions(sessions) && DistinctRuntimes(runtimes)
    ensures var sessions' := ReconcileRows(sessions, runtimes, now);
      var runtimes' := Survivors(sessions, runtimes, now, {});
      && (forall r :: r in Survivors(sessions, runtimes, now, failing) ==> r in runtimes)
      && ReconcileRows(sessions', runtimes', now) == sessions'
      && Survivors(sessions', runtimes', now, failing) == runtimes'
  {
    SessionsConverge(sessions, runtimes, now, {});
    var sessions' := ReconcileRows(sessions, runtimes, now);
    var runtimes' := Survivors(sessions, runtimes, now, {});
    WithoutDistinct(runtimes, DoomedIds(sessions, runtimes, now) - {});
    forall r | r in runtimes' ensures r.runtimeId !in DoomedIds(sessions', runtimes', now) - failing {
      forall x | x in runtimes' && x.runtimeId == r.runtimeId ensures !Doomed(sessions', runtimes', now, x) {
        DoomedAgain(sessions, runtimes, now, {}, x);
      }
    }
    WithoutNone(runtimes', DoomedIds(sessions', runtimes', now) - failing);
  }

  /** A session that is served: it stays in a state in which its desktop is in use. */
  predicate Served(row: SessionRow) {
    !row.deleted && (row.status.Ready? || row.status.Running? || row.status.Stopping?)
  }

  lemma Single(runtimes: seq<Runtime>, r: Runtime)
    requires DistinctRuntimes(runtimes) && r in runtimes && forall x :: x in runtimes ==> x == r
    ensures runtimes == [r]
  {
    var first, last := runtimes[0], runtimes[|runtimes| - 1];
    assert first in runtimes && last in runtimes;
    assert first == last == r;
  }

  lemma ServedRow(row: SessionRow, candidates: seq<Runtime>, now: int)
    requires Served(ReconcileRow(row, candidates, now))
    ensures !row.deleted && now < row.expiresAt && Active(row.status) && candidates != []
    ensures var selected := SelectRuntime(row.runtimeId, candidates);
      && selected.Some? && selected.value in candidates && selected.value.status == RUNNING
      && ReconcileRow(row, candidates, now).runtimeId == Some(selected.value.runtimeId)
  {
    SelectedIsCandidate(row.runtimeId, candidates);
  }

  lemma OnlySelectedIsLeft(sessions: seq<SessionRow>, runtimes: seq<Runtime>, now: int, row: SessionRow)
    requires DistinctRuntimes(runtimes) && FindRow(sessions, row.id) == Some(row)
    requires !row.deleted && now < row.expiresAt && Active(row.status)
    requires Candidates(runtimes, row.id) != []
    ensures Candidates(Survivors(sessions, runtimes, now, {}), row.id)
         == [SelectRuntime(row.runtimeId, Candidates(runtimes, row.id)).value]
  {
    var candidates := Candidates(runtimes, row.id);
    var gone := DoomedIds(sessions, runtimes, now) - {};
    SelectedIsCandidate(row.runtimeId, candidates);
    CandidatesDistinct(runtimes, row.id);
    CandidatesWithout(runtimes, gone, row.id);
    WithoutDistinct(candidates, gone);
    SelectedIsKept(sessions, runtimes, now, row);
    var selected := SelectRuntime(row.runtimeId, candidates).value;
    forall x | x in Without(candidates, gone) ensures x == selected {
      assert !Doomed(sessions, runtimes, now, x);
      SameRuntime(runtimes, x, selected);
    }
    Single(Without(candidates, gone), selected);
  }

  /** A session served after the pass is bound to its only surviving runtime, which runs and carries its label. */
  predicate BoundToOnly(row: SessionRow, runtimes: seq<Runtime>) {
    var mine := Candidates(runtimes, row.id);
    && |mine| == 1 && mine[0] in runtimes && mine[0].session == row.id
    && mine[0].status == RUNNING && row.runtimeId == Some(mine[0].runtimeId)
  }

  lemma ServedIsBound(sessions: seq<SessionRow>, runtimes: seq<Runtime>, now: int, i: nat)
    requires DistinctSessions(sessions) && DistinctRuntimes(runtimes) && i < |sessions|
    requires Served(ReconcileRow(sessions[i], Candidates(runtimes, sessions[i].id), now))
    ensures BoundToOnly(ReconcileRow(sessions[i], Candidates(runtimes, sessions[i].id), now),
                        Survivors(sessions, runtimes, now, {}))
  {
    var row := sessions[i];
    FindAt(sessions, i);
    ServedRow(row, Candidates(runtimes, row.id), now);
    OnlySelectedIsLeft(sessions, runtimes, now, row);
    var mine := Candidates(Survivors(sessions, runtimes, now, {}), row.id);
    assert mine[0] in mine;
  }

  lemma SurvivorHasSession(sessions: seq<SessionRow>, runtimes: seq<Runtime>, now: int, r: Runtime)
    requires r in Survivors(sessions, runtimes, now, {})
    ensures var row := FindRow(ReconcileRows(sessions, runtimes, now), r.session);
      row.Some? && row.value.id == r.session && !row.value.deleted && now < row.value.expiresAt
  {
    assert r.runtimeId !in DoomedIds(sessions, runtimes, now) - {};
    NotDoomed(sessions, runtimes, now, r);
    FindReconciled(sessions, runtimes, now, r.session);
    FoundRow(sessions, r.session);
    var row := FindRow(sessions, r.session).value;
    VersionTellsChange(row, Candidates(runtimes, r.session), now);
  }

  lemma NotDoomed(sessions: seq<SessionRow>, runtimes: seq<Runtime>, now: int, r: Runtime)
    requires r in runtimes && r.runtimeId !in DoomedIds(sessions, runtimes, now)
    ensures FindRow(sessions, r.session).Some?
    ensures var row := FindRow(sessions, r.session).value;
      !row.deleted && !DoomedFor(row, Candidates(runtimes, r.session), now, r)
  {
    assert !Doomed(sessions, runtimes, now, r);
  }

  /** After a pass whose deletes succeeded, every runtime belongs to an existing, undeleted, unexpired
      session; every served session is bound to its only runtime, which is running and carries its label;
      no two served sessions share one. */
  lemma CleanPassIsConsistent(sessions: seq<SessionRow>, runtimes: seq<Runtime>, now: int)
    requires DistinctSessions(sessions) && DistinctRuntimes(runtimes)
    ensures var sessions' := ReconcileRows(sessions, runtimes, now);
      var runtimes' := Survivors(sessions, runtimes, now, {});
      && (forall r :: r in runtimes' ==>
            var row := FindRow(sessions', r.session);
            row.Some? && row.value.id == r.session && !row.value.deleted && now < row.value.expiresAt)
      && (forall row :: row in sessions' && Served(row) ==> BoundToOnly(row, runtimes'))
      && (forall a, b :: a in sessions' && b in sessions' && Served(a) && Served(b) && a.id != b.id ==>
            a.runtimeId != b.runtimeId)
  {
    var sessions' := ReconcileRows(sessions, runtimes, now);
    var runtimes' := Survivors(sessions, runtimes, now, {});
    RowsAt(sessions, runtimes, now);
    forall r | r in runtimes' ensures
      (var row := FindRow(sessions', r.session);
       row.Some? && row.value.id == r.session && !row.value.deleted && now < row.value.expiresAt)
    {
      SurvivorHasSession(sessions, runtimes, now, r);
    }
    forall row | row in sessions' && Served(row) ensures BoundToOnly(row, runtimes') {
      var i :| 0 <= i < |sessions'| && sessions'[i] == row;
      ServedIsBound(sessions, runtimes, now, i);
    }
    forall a, b | a in sessions' && b in sessions' && Served(a) && Served(b) && a.id != b.id
      ensures a.runtimeId != b.runtimeId
    {
      WithoutDistinct(runtimes, DoomedIds(sessions, runtimes, now) - {});
      NotShared(a, b, runtimes');
    }
  }

  lemma NotShared(a: SessionRow, b: SessionRow, runtimes: seq<Runtime>)
    requires DistinctRuntimes(runtimes) && BoundToOnly(a, runtimes) && BoundToOnly(b, runtimes) && a.id != b.id
    ensures a.runtimeId != b.runtimeId
  {
    var x, y := Candidates(runtimes, a.id)[0], Candidates(runtimes, b.id)[0];
    if x.runtimeId == y.runtimeId { SameRuntime(runtimes, x, y); }
  }

  // ---------- failed deletes and the next pass ----------

  lemma {:induction false} SameRemoval(runtimes: seq<Runtime>, ids: set<RuntimeId>, others: set<RuntimeId>)
    requires DistinctRuntimes(runtimes)
    ensures Without(runtimes, ids) == Without(runtimes, others) <==>
            forall r :: r in runtimes ==> (r.runtimeId in ids <==> r.runtimeId in others)
  {
    if Without(runtimes, ids) == Without(runtimes, others) {
      forall r | r in runtimes ensures r.runtimeId in ids <==> r.runtimeId in others {
        assert r in Without(runtimes, ids) <==> r in Without(runtimes, others);
      }
    }
    if forall r :: r in runtimes ==> (r.runtimeId in ids <==> r.runtimeId in others) {
      AgreeingRemoval(runtimes, ids, others);
    }
  }

  lemma {:induction false} AgreeingRemoval(runtimes: seq<Runtime>, ids: set<RuntimeId>, others: set<RuntimeId>)
    requires forall r :: r in runtimes ==> (r.runtimeId in ids <==> r.runtimeId in others)
    ensures Without(runtimes, ids) == Without(runtimes, others)
  {
    if runtimes != [] {
      assert forall r :: r in runtimes[1..] ==> r in runtimes;
      AgreeingRemoval(runtimes[1..], ids, others);
      assert runtimes[0] in runtimes;
    }
  }

  lemma {:induction false} WithoutTwice(runtimes: seq<Runtime>, a: set<RuntimeId>, b: set<RuntimeId>)
    ensures Without(Without(runtimes, a), b) == Without(runtimes, a + b)
  {
    if runtimes != [] {
      WithoutTwice(runtimes[1..], a, b);
      var head, tail := runtimes[0], Without(runtimes[1..], a);
      assert ([head] + tail)[1..] == tail;
    }
  }

  lemma InDoomedIds(sessions: seq<SessionRow>, runtimes: seq<Runtime>, now: int, r: Runtime)
    requires DistinctRuntimes(runtimes) && r in runtimes
    ensures r.runtimeId in DoomedIds(sessions, runtimes, now) <==> Doomed(sessions, runtimes, now, r)
  {
    forall x | x in runtimes && x.runtimeId == r.runtimeId ensures x == r { SameRuntime(runtimes, x, r); }
  }

  /** Retrying failed deletes on the next pass gives the result of a pass without failures if and only if
      no failed delete concerned a session that the first pass ended: such a session is no longer active,
      so its leftover runtimes are never tried again. */
  lemma RetryConverges(sessions: seq<SessionRow>, runtimes: seq<Runtime>, now: int, failing: set<RuntimeId>)
    requires DistinctSessions(sessions) && DistinctRuntimes(runtimes)
    ensures var sessions' := ReconcileRows(sessions, runtimes, now);
      var left := Survivors(sessions, runtimes, now, failing);
      Survivors(sessions', left, now, {}) == Survivors(sessions, runtimes, now, {}) <==>
        !exists r :: r in runtimes && r.runtimeId in failing
                     && Doomed(sessions, runtimes, now, r) && Settled(sessions, runtimes, now, r)
  {
    var sessions' := ReconcileRows(sessions, runtimes, now);
    var doomed := DoomedIds(sessions, runtimes, now);
    var left := Survivors(sessions, runtimes, now, failing);
    var again := DoomedIds(sessions', left, now);
    WithoutTwice(runtimes, doomed - failing, again - {});
    SameRemoval(runtimes, (doomed - failing) + (again - {}), doomed - {});
    WithoutDistinct(runtimes, doomed - failing);
    forall r | r in runtimes
      ensures r.runtimeId in (doomed - failing) + (again - {}) <==>
              Doomed(sessions, runtimes, now, r)
              && !(r.runtimeId in failing && Settled(sessions, runtimes, now, r))
      ensures r.runtimeId in doomed - {} <==> Doomed(sessions, runtimes, now, r)
    {
      InDoomedIds(sessions, runtimes, now, r);
      if r in left {
        InDoomedIds(sessions', left, now, r);
        DoomedAgain(sessions, runtimes, now, failing, r);
      } else {
        assert r.runtimeId in doomed - failing;
      }
    }
  }

  // ---------- the outcome of a pass, status by status ----------

  /** The runtime a session is served by: the one it is bound to if that is listed, otherwise the first listed. */
  ghost predicate Serves(row: SessionRow, candidates: seq<Runtime>, r: Runtime) {
    && r in candidates
    && (if Bound(row.runtimeId) && exists q :: q in candidates && q.runtimeId == row.runtimeId.value
        then r.runtimeId == row.runtimeId.value
        else r == candidates[0])
  }

  lemma SelectedServes(row: SessionRow, candidates: seq<Runtime>, r: Runtime)
    requires DistinctRuntimes(candidates)
    ensures SelectRuntime(row.runtimeId, candidates) == Some(r) <==> Serves(row, candidates, r)
  {
    SelectedIsCandidate(row.runtimeId, candidates);
    if Bound(row.runtimeId) {
      FoundIsMember(candidates, row.runtimeId.value);
      forall q | q in candidates && q.runtimeId == row.runtimeId.value
        ensures FindRuntime(candidates, row.runtimeId.value) == Some(q)
      {
        FindMember(candidates, q);
      }
    }
  }

  /** Still to be looked after: not deleted, not over, and its time has not come. */
  predicate Alive(row: SessionRow, now: int) {
    && !row.deleted && row.expiresAt > now
    && (row.status == Creating || row.status == Ready || row.status == Running || row.status == Stopping)
  }

  ghost predicate ServedBy(row: SessionRow, candidates: seq<Runtime>, running: bool) {
    exists r :: Serves(row, candidates, r) && (r.status == "running") == running
  }

  lemma ServedIff(row: SessionRow, candidates: seq<Runtime>)
    requires DistinctRuntimes(candidates)
    ensures var selected := SelectRuntime(row.runtimeId, candidates);
      && (selected.None? <==> candidates == [])
      && (ServedBy(row, candidates, true) <==> selected.Some? && selected.value.status == "running")
      && (ServedBy(row, candidates, false) <==> selected.Some? && selected.value.status != "running")
  {
    SelectedIsCandidate(row.runtimeId, candidates);
    var selected := SelectRuntime(row.runtimeId, candidates);
    if selected.Some? {
      SelectedServes(row, candidates, selected.value);
      forall r | Serves(row, candidates, r) ensures r == selected.value { SelectedServes(row, candidates, r); }
    } else {
      assert forall r :: !Serves(row, candidates, r);
    }
  }

  /** A row that is deleted or over is left alone, except that its time may be over. */
  lemma OverRowStays(row: SessionRow, candidates: seq<Runtime>, now: int)
    requires !Alive(row, now)
    ensures var row' := ReconcileRow(row, candidates, now);
      row' == if !row.deleted && row.expiresAt <= now && row.status != Expired
              then row.(status := Expired, version := row.version + 1) else row
  {
  }

  /** The binding of a live session: the runtime that serves it, if one is listed for it. */
  lemma AliveIsBound(row: SessionRow, candidates: seq<Runtime>, now: int)
    requires DistinctRuntimes(candidates) && Alive(row, now)
    ensures var row' := ReconcileRow(row, candidates, now);
      && row'.id == row.id && row'.expiresAt == row.expiresAt && row'.deleted == row.deleted
      && (candidates == [] ==> row'.runtimeId == row.runtimeId)
      && (forall r :: Serves(row, candidates, r) ==> row'.runtimeId == Some(r.runtimeId))
  {
    forall r | Serves(row, candidates, r) ensures SelectRuntime(row.runtimeId, candidates) == Some(r) {
      SelectedServes(row, candidates, r);
    }
    SelectedIsCandidate(row.runtimeId, candidates);
  }

  /** The status of a live session after a pass: one in creation waits until a runtime is listed for it and is
      then READY; one without a runtime fails; one whose runtime does not run is STOPPED if it was stopping and fails
      otherwise; any other one stays. */
  lemma AliveStatusIff(row: SessionRow, candidates: seq<Runtime>, now: int)
    requires DistinctRuntimes(candidates) && Alive(row, now)
    ensures var status := ReconcileRow(row, candidates, now).status;
      && (status == Creating <==> row.status == Creating && candidates == [])
      && (status == Ready <==> (row.status == Creating || row.status == Ready) && ServedBy(row, candidates, true))
      && (status == Running <==> row.status == Running && ServedBy(row, candidates, true))
      && (status == Stopping <==> row.status == Stopping && ServedBy(row, candidates, true))
      && (status == Stopped <==> row.status == Stopping && ServedBy(row, candidates, false))
      && (status == Failed <==> (row.status != Creating && candidates == [])
                                || (row.status != Stopping && ServedBy(row, candidates, false)))
      && status != Expired
  {
    ServedIff(row, candidates);
  }

  /** A session in creation is changed only if a runtime carries its label. */
  lemma CreationWaits(row: SessionRow, runtimes: seq<Runtime>, now: int)
    requires row.status == Creating && row.expiresAt > now && forall r :: r in runtimes ==> r.session != row.id
    ensures ReconcileRow(row, Candidates(runtimes, row.id), now) == row
  {
    SelectedIsCandidate(row.runtimeId, Candidates(runtimes, row.id));
  }

  /** Which runtimes a pass tries to delete: those whose session is unknown, deleted or expired, and those of a live
      session that do not serve it. */
  lemma DoomedIff(sessions: seq<SessionRow>, runtimes: seq<Runtime>, now: int, r: Runtime)
    requires DistinctSessions(sessions) && DistinctRuntimes(runtimes) && r in runtimes
    ensures r.runtimeId in DoomedIds(sessions, runtimes, now) <==>
      forall i :: 0 <= i < |sessions| && sessions[i].id == r.session ==>
        var row := sessions[i];
        row.deleted || row.expiresAt <= now || (Alive(row, now) && !Serves(row, Candidates(runtimes, row.id), r))
  {
    InDoomedIds(sessions, runtimes, now, r);
    CandidatesDistinct(runtimes, r.session);
    FoundRow(sessions, r.session);
    forall i | 0 <= i < |sessions| && sessions[i].id == r.session
      ensures FindRow(sessions, r.session) == Some(sessions[i])
    {
      FindAt(sessions, i);
    }
    if FindRow(sessions, r.session).Some? {
      var row, candidates := FindRow(sessions, r.session).value, Candidates(runtimes, r.session);
      SelectedServes(row, candidates, r);
      SelectedIsCandidate(row.runtimeId, candidates);
      var selected := SelectRuntime(row.runtimeId, candidates);
      if selected.value.runtimeId == r.runtimeId { SameRuntime(runtimes, selected.value, r); }
    }
  }

  // ---------- the unique constraint on runtime ids ----------

  /** No two rows are bound to one runtime, deleted rows included. */
  ghost predicate UniqueBindings(sessions: seq<SessionRow>) {
    forall i, j :: 0 <= i < j < |sessions| && sessions[i].runtimeId.Some? ==> sessions[i].runtimeId != sessions[j].runtimeId
  }

  /** A pass changes the binding of a row. */
  predicate Rebinds(row: SessionRow, runtimes: seq<Runtime>, now: int) {
    ReconcileRow(row, Candidates(runtimes, row.id), now).runtimeId != row.runtimeId
  }

  /** A pass gives row `i` a runtime that row `j` keeps. */
  predicate TakesFrom(sessions: seq<SessionRow>, runtimes: seq<Runtime>, now: int, i: int, j: int) {
    && 0 <= i < |sessions| && 0 <= j < |sessions| && i != j
    && Rebinds(sessions[i], runtimes, now) && !Rebinds(sessions[j], runtimes, now)
    && sessions[j].runtimeId == ReconcileRow(sessions[i], Candidates(runtimes, sessions[i].id), now).runtimeId
  }

  /** A row is bound anew only to a runtime with its own label. */
  lemma ReboundIsLabelled(row: SessionRow, runtimes: seq<Runtime>, now: int) returns (r: Runtime)
    requires Rebinds(row, runtimes, now)
    ensures r in runtimes && r.session == row.id
    ensures ReconcileRow(row, Candidates(runtimes, row.id), now).runtimeId == Some(r.runtimeId)
  {
    var candidates := Candidates(runtimes, row.id);
    SelectedIsCandidate(row.runtimeId, candidates);
    r := SelectRuntime(row.runtimeId, candidates).value;
  }

  lemma ReboundApart(a: SessionRow, b: SessionRow, runtimes: seq<Runtime>, now: int)
    requires DistinctRuntimes(runtimes) && a.id != b.id && Rebinds(a, runtimes, now) && Rebinds(b, runtimes, now)
    ensures ReconcileRow(a, Candidates(runtimes, a.id), now).runtimeId != ReconcileRow(b, Candidates(runtimes, b.id), now).runtimeId
  {
    var r := ReboundIsLabelled(a, runtimes, now);
    var q := ReboundIsLabelled(b, runtimes, now);
    if r.runtimeId == q.runtimeId { SameRuntime(runtimes, r, q); }
  }

  lemma TakingCollides(sessions: seq<SessionRow>, runtimes: seq<Runtime>, now: int, i: int, j: int)
    requires TakesFrom(sessions, runtimes, now, i, j)
    ensures !UniqueBindings(ReconcileRows(sessions, runtimes, now))
  {
    RowsAt(sessions, runtimes, now);
    var rows := ReconcileRows(sessions, runtimes, now);
    var r := ReboundIsLabelled(sessions[i], runtimes, now);
    assert rows[i].runtimeId == rows[j].runtimeId == Some(r.runtimeId);
  }

  /** The rows of a pass respect the unique constraint if and only if no session is given a runtime that the row
      of another one keeps. */
  lemma CommitIsUniqueIff(sessions: seq<SessionRow>, runtimes: seq<Runtime>, now: int)
    requires DistinctSessions(sessions) && DistinctRuntimes(runtimes) && UniqueBindings(sessions)
    ensures UniqueBindings(ReconcileRows(sessions, runtimes, now)) <==>
            !exists i, j :: TakesFrom(sessions, runtimes, now, i, j)
  {
    if i, j :| TakesFrom(sessions, runtimes, now, i, j) {
      TakingCollides(sessions, runtimes, now, i, j);
    } else {
      RowsAt(sessions, runtimes, now);
      var rows := ReconcileRows(sessions, runtimes, now);
      forall i, j | 0 <= i < j < |sessions| && rows[i].runtimeId.Some? ensures rows[i].runtimeId != rows[j].runtimeId {
        StillApart(sessions, runtimes, now, i, j);
      }
    }
  }

  lemma StillApart(sessions: seq<SessionRow>, runtimes: seq<Runtime>, now: int, i: int, j: int)
    requires DistinctSessions(sessions) && DistinctRuntimes(runtimes) && UniqueBindings(sessions) && 0 <= i < j < |sessions|
    requires !TakesFrom(sessions, runtimes, now, i, j) && !TakesFrom(sessions, runtimes, now, j, i)
    ensures var a, b := sessions[i], sessions[j];
      var x, y := ReconcileRow(a, Candidates(runtimes, a.id), now), ReconcileRow(b, Candidates(runtimes, b.id), now);
      x.runtimeId.Some? ==> x.runtimeId != y.runtimeId
  {
    if Rebinds(sessions[i], runtimes, now) && Rebinds(sessions[j], runtimes, now) {
      ReboundApart(sessions[i], sessions[j], runtimes, now);
    }
  }

  /** Every listed runtime that a row is bound to carries the label of that row's session. */
  ghost predicate OwnLabels(sessions: seq<SessionRow>, runtimes: seq<Runtime>) {
    forall i, k :: 0 <= i < |sessions| && 0 <= k < |runtimes| && sessions[i].runtimeId == Some(runtimes[k].runtimeId) ==>
      runtimes[k].session == sessions[i].id
  }

  lemma LabelsTakeNothing(sessions: seq<SessionRow>, runtimes: seq<Runtime>, now: int, i: int, j: int)
    requires DistinctSessions(sessions) && OwnLabels(sessions, runtimes)
    ensures !TakesFrom(sessions, runtimes, now, i, j)
  {
    if 0 <= i < |sessions| && Rebinds(sessions[i], runtimes, now) {
      var r := ReboundIsLabelled(sessions[i], runtimes, now);
      var k :| 0 <= k < |runtimes| && runtimes[k] == r;
    }
  }

  lemma LabelsKept(row: SessionRow, runtimes: seq<Runtime>, now: int, r: Runtime)
    requires DistinctRuntimes(runtimes) && r in runtimes
    requires row.runtimeId == Some(r.runtimeId) ==> r.session == row.id
    ensures ReconcileRow(row, Candidates(runtimes, row.id), now).runtimeId == Some(r.runtimeId) ==> r.session == row.id
  {
    if Rebinds(row, runtimes, now) {
      var q := ReboundIsLabelled(row, runtimes, now);
      if q.runtimeId == r.runtimeId { SameRuntime(runtimes, q, r); }
    }
  }

  /** If bindings and labels agree, a pass keeps both the unique constraint and the agreement. */
  lemma OwnLabelsKept(sessions: seq<SessionRow>, runtimes: seq<Runtime>, now: int)
    requires DistinctSessions(sessions) && DistinctRuntimes(runtimes) && UniqueBindings(sessions) && OwnLabels(sessions, runtimes)
    ensures UniqueBindings(ReconcileRows(sessions, runtimes, now)) && OwnLabels(ReconcileRows(sessions, runtimes, now), runtimes)
  {
    forall i, j ensures !TakesFrom(sessions, runtimes, now, i, j) { LabelsTakeNothing(sessions, runtimes, now, i, j); }
    CommitIsUniqueIff(sessions, runtimes, now);
    RowsAt(sessions, runtimes, now);
    forall i, k | 0 <= i < |sessions| && 0 <= k < |runtimes|
      ensures ReconcileRows(sessions, runtimes, now)[i].runtimeId == Some(runtimes[k].runtimeId) ==>
                runtimes[k].session == sessions[i].id
    {
      LabelsKept(sessions[i], runtimes, now, runtimes[k]);
    }
  }
}
