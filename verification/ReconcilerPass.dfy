/** `reconcile` as the loops it is, over a provider whose deletes may fail silently. */
module ReconcilerPass {
  import opened Wrappers
  import opened SessionRows
  import opened Reconciler

  class RuntimeReconciler {
    var sessions: seq<SessionRow>
    var runtimes: seq<Runtime>

    constructor (sessions: seq<SessionRow>, runtimes: seq<Runtime>)
      ensures this.sessions == sessions && this.runtimes == runtimes
    {
      this.sessions, this.runtimes := sessions, runtimes;
    }

    /** The provider's delete; a failure is logged and leaves the runtime in place. */
    method DeleteRuntime(runtime: Runtime, failing: set<RuntimeId>)
      modifies this`runtimes
      ensures runtimes == Without(old(runtimes), {runtime.runtimeId} - failing)
    {
      if runtime.runtimeId !in failing {
        runtimes := Without(runtimes, {runtime.runtimeId});
        assert {runtime.runtimeId} - failing == {runtime.runtimeId};
      } else {
        WithoutNone(runtimes, {runtime.runtimeId} - failing);
      }
    }

    method DeleteAll(doomed: seq<Runtime>, keep: Option<Runtime>, failing: set<RuntimeId>)
      modifies this`runtimes
      ensures runtimes == Without(old(runtimes), Ids(doomed, keep) - failing)
    {
      ghost var was, gone := runtimes, {};
      WithoutNone(was, {});
      assert Ids(doomed[..0], keep) - failing == {};
      var i := 0;
      while i < |doomed|
        invariant 0 <= i <= |doomed|
        invariant gone == Ids(doomed[..i], keep) - failing && runtimes == Without(was, gone)
      {
        OneMoreId(doomed, keep, i, failing);
        if keep.None? || doomed[i].runtimeId != keep.value.runtimeId {
          DeleteRuntime(doomed[i], failing);
          ghost var more := {doomed[i].runtimeId} - failing;
          WithoutTwice(was, gone, more);
          gone := gone + more;
        }
        i := i + 1;
      }
      assert doomed[..|doomed|] == doomed;
    }

    /** The runtimes whose session is unknown or deleted. */
    method DeleteOrphans(now: int, failing: set<RuntimeId>) returns (ghost gone: set<RuntimeId>)
      modifies this`runtimes
      ensures runtimes == Without(old(runtimes), gone)
      ensures gone <= DoomedIds(sessions, old(runtimes), now) - failing
      ensures OrphansGone(sessions, old(runtimes), failing, gone)
    {
      var listed := runtimes;
      gone := {};
      WithoutNone(listed, {});
      var i := 0;
      while i < |listed|
        invariant 0 <= i <= |listed|
        invariant runtimes == Without(listed, gone)
        invariant gone <= DoomedIds(sessions, listed, now) - failing
        invariant OrphansGone(sessions, listed[..i], failing, gone)
      {
        var runtime := listed[i];
        OneMoreOrphan(sessions, listed, now, failing, gone, i);
        if Orphan(sessions, runtime) {
          DeleteRuntime(runtime, failing);
          WithoutTwice(listed, gone, {runtime.runtimeId} - failing);
          gone := gone + ({runtime.runtimeId} - failing);
        }
        i := i + 1;
      }
      assert listed[..|listed|] == listed;
    }

    /** One session: delete its expired or duplicate runtimes and settle its row. */
    method ReconcileSession(session: SessionRow, listed: seq<Runtime>, now: int, failing: set<RuntimeId>)
      returns (row: SessionRow, ghost doomed: seq<Runtime>, ghost keep: Option<Runtime>)
      modifies this`runtimes
      ensures row == ReconcileRow(session, Candidates(listed, session.id), now)
      ensures Targets(session, Candidates(listed, session.id), now, doomed, keep)
      ensures runtimes == Without(old(runtimes), Ids(doomed, keep) - failing)
    {
      row := session;
      var candidates := Candidates(listed, row.id);
      var targets, selected := [], None;
      if !row.deleted {
        if row.expiresAt <= now {
          targets := candidates;
          if !row.status.Expired? {
            row := row.(status := Expired, version := row.version + 1);
          }
        } else if Active(row.status) {
          targets, selected := candidates, SelectRuntime(row.runtimeId, candidates);
          row := SettleRow(row, selected);
        }
      }
      DeleteAll(targets, selected, failing);
      doomed, keep := targets, selected;
    }

    /** One pass. The deletes whose ids are in `failing` fail. */
    method Reconcile(now: int, failing: set<RuntimeId>)
      requires DistinctSessions(sessions) && DistinctRuntimes(runtimes)
      modifies this
      ensures sessions == ReconcileRows(old(sessions), old(runtimes), now)
      ensures runtimes == Survivors(old(sessions), old(runtimes), now, failing)
    {
      var listed, loaded := runtimes, sessions;
      ghost var gone := DeleteOrphans(now, failing);
      var i := 0;
      while i < |loaded|
        invariant 0 <= i <= |loaded| == |sessions|
        invariant runtimes == Without(listed, gone)
        invariant gone <= DoomedIds(loaded, listed, now) - failing
        invariant OrphansGone(loaded, listed, failing, gone) && TriedGone(loaded, listed, now, failing, gone, i)
        invariant forall j :: 0 <= j < i ==> sessions[j] == ReconcileRow(loaded[j], Candidates(listed, loaded[j].id), now)
        invariant forall j :: i <= j < |sessions| ==> sessions[j] == loaded[j]
      {
        var row; ghost var doomed, keep;
        row, doomed, keep := ReconcileSession(sessions[i], listed, now, failing);
        OneMoreSession(loaded, listed, now, failing, gone, i, doomed, keep);
        WithoutTwice(listed, gone, Ids(doomed, keep) - failing);
        gone := gone + (Ids(doomed, keep) - failing);
        sessions := sessions[i := row];
        i := i + 1;
      }
      RowsAt(loaded, listed, now);
      AllTried(loaded, listed, now, failing, gone);
    }

    /** The status and binding changes for a live session, given the runtime selected for it. */
    static method SettleRow(session: SessionRow, selected: Option<Runtime>) returns (row: SessionRow)
      ensures row == Settle(session, selected)
    {
      row := session;
      if selected.None? {
        if !row.status.Creating? {
          row := row.(status := Failed, version := row.version + 1);
        }
        return;
      }
      if row.runtimeId != Some(selected.value.runtimeId) {
        row := row.(runtimeId := Some(selected.value.runtimeId), version := row.version + 1);
      }
      if selected.value.status == RUNNING {
        if row.status.Creating? {
          row := row.(status := Ready, version := row.version + 1);
        }
      } else if row.status.Stopping? {
        row := row.(status := Stopped, version := row.version + 1);
      } else {
        row := row.(status := Failed, version := row.version + 1);
      }
    }
  }

  function Settle(row: SessionRow, selected: Option<Runtime>): SessionRow {
    match selected
    case None => if row.status.Creating? then row else SetStatus(row, Failed)
    case Some(r) =>
      var bound := Bind(row, r.runtimeId);
      if r.status == RUNNING then (if row.status.Creating? then SetStatus(bound, Ready) else bound)
      else if row.status.Stopping? then SetStatus(bound, Stopped)
      else SetStatus(bound, Failed)
  }

  /** The ids of a list of runtimes, except the one to keep. */
  function Ids(doomed: seq<Runtime>, keep: Option<Runtime>): set<RuntimeId> {
    set r | r in doomed && (keep.None? || r.runtimeId != keep.value.runtimeId) :: r.runtimeId
  }

  lemma OneMoreId(doomed: seq<Runtime>, keep: Option<Runtime>, i: nat, failing: set<RuntimeId>)
    requires i < |doomed|
    ensures Ids(doomed[..i + 1], keep) - failing ==
      if keep.None? || doomed[i].runtimeId != keep.value.runtimeId
      then (Ids(doomed[..i], keep) - failing) + ({doomed[i].runtimeId} - failing)
      else Ids(doomed[..i], keep) - failing
  {
    assert doomed[..i + 1] == doomed[..i] + [doomed[i]];
  }

  predicate Orphan(sessions: seq<SessionRow>, r: Runtime) {
    FindRow(sessions, r.session).None? || FindRow(sessions, r.session).value.deleted
  }

  predicate Tried(row: SessionRow, runtimes: seq<Runtime>, now: int, r: Runtime) {
    r in Candidates(runtimes, row.id) && !row.deleted && DoomedFor(row, Candidates(runtimes, row.id), now, r)
  }

  /** What a pass tries to delete on behalf of one session: everything in `doomed` but `keep`. */
  predicate Targets(row: SessionRow, candidates: seq<Runtime>, now: int, doomed: seq<Runtime>, keep: Option<Runtime>) {
    if row.deleted then doomed == []
    else if row.expiresAt <= now then doomed == candidates && keep == None
    else if Active(row.status) then doomed == candidates && keep == SelectRuntime(row.runtimeId, candidates)
    else doomed == []
  }

  lemma TriedIds(sessions: seq<SessionRow>, runtimes: seq<Runtime>, now: int, i: nat, doomed: seq<Runtime>, keep: Option<Runtime>)
    requires DistinctSessions(sessions) && i < |sessions|
    requires Targets(sessions[i], Candidates(runtimes, sessions[i].id), now, doomed, keep)
    ensures Ids(doomed, keep) <= DoomedIds(sessions, runtimes, now)
    ensures forall r :: Tried(sessions[i], runtimes, now, r) ==> r.runtimeId in Ids(doomed, keep)
  {
    FindAt(sessions, i);
  }

  ghost predicate OrphansGone(sessions: seq<SessionRow>, runtimes: seq<Runtime>, failing: set<RuntimeId>, gone: set<RuntimeId>) {
    forall r :: r in runtimes && Orphan(sessions, r) && r.runtimeId !in failing ==> r.runtimeId in gone
  }

  ghost predicate TriedGone(sessions: seq<SessionRow>, runtimes: seq<Runtime>, now: int, failing: set<RuntimeId>,
                            gone: set<RuntimeId>, n: nat)
    requires n <= |sessions|
  {
    forall j, r :: 0 <= j < n && Tried(sessions[j], runtimes, now, r) && r.runtimeId !in failing ==> r.runtimeId in gone
  }

  lemma OneMoreOrphan(sessions: seq<SessionRow>, runtimes: seq<Runtime>, now: int, failing: set<RuntimeId>,
                      gone: set<RuntimeId>, i: nat)
    requires i < |runtimes| && OrphansGone(sessions, runtimes[..i], failing, gone)
    ensures var more := gone + ({runtimes[i].runtimeId} - failing);
      if Orphan(sessions, runtimes[i])
      then OrphansGone(sessions, runtimes[..i + 1], failing, more) && {runtimes[i].runtimeId} <= DoomedIds(sessions, runtimes, now)
      else OrphansGone(sessions, runtimes[..i + 1], failing, gone)
  {
    assert runtimes[..i + 1] == runtimes[..i] + [runtimes[i]];
    if Orphan(sessions, runtimes[i]) { assert Doomed(sessions, runtimes, now, runtimes[i]); }
  }

  lemma OneMoreSession(sessions: seq<SessionRow>, runtimes: seq<Runtime>, now: int, failing: set<RuntimeId>,
                       gone: set<RuntimeId>, i: nat, doomed: seq<Runtime>, keep: Option<Runtime>)
    requires DistinctSessions(sessions) && i < |sessions|
    requires Targets(sessions[i], Candidates(runtimes, sessions[i].id), now, doomed, keep)
    requires gone <= DoomedIds(sessions, runtimes, now) - failing
    requires OrphansGone(sessions, runtimes, failing, gone) && TriedGone(sessions, runtimes, now, failing, gone, i)
    ensures var more := gone + (Ids(doomed, keep) - failing);
      && more <= DoomedIds(sessions, runtimes, now) - failing
      && OrphansGone(sessions, runtimes, failing, more) && TriedGone(sessions, runtimes, now, failing, more, i + 1)
  {
    TriedIds(sessions, runtimes, now, i, doomed, keep);
  }

  lemma AllTried(sessions: seq<SessionRow>, runtimes: seq<Runtime>, now: int, failing: set<RuntimeId>, gone: set<RuntimeId>)
    requires gone <= DoomedIds(sessions, runtimes, now) - failing
    requires OrphansGone(sessions, runtimes, failing, gone) && TriedGone(sessions, runtimes, now, failing, gone, |sessions|)
    ensures gone == DoomedIds(sessions, runtimes, now) - failing
  {
    forall r | r in runtimes && Doomed(sessions, runtimes, now, r) && r.runtimeId !in failing ensures r.runtimeId in gone {
      if !Orphan(sessions, r) {
        FoundRow(sessions, r.session);
        var row := FindRow(sessions, r.session).value;
        var j :| 0 <= j < |sessions| && sessions[j] == row;
        assert Tried(sessions[j], runtimes, now, r);
      }
    }
  }
}
