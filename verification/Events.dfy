/** Event rows, the ordered page read of the event table, and the frames of the stream. */
module Events {
  import opened Json

  type SessionId = string

  datatype EventType =
    | SessionStatus
    | RunStarted
    | AssistantDelta
    | AssistantMessage
    | ToolStarted
    | ToolResult
    | ScreenshotAvailable
    | RunCompleted
    | RunFailed

  /** A row of the `events` table. `id` is the autoincremented primary key. */
  datatype Event = Event(
    id: int,
    session: SessionId,
    run: Json,
    kind: EventType,
    payload: Json,
    createdAt: string)

  /** What the stream writes to the HTTP response. */
  datatype Frame =
    | Retry
    | Heartbeat(timestamp: string)
    | Reset
    | Ev(event: Event)

  ghost predicate Sorted(es: seq<Event>) {
    forall i, j :: 0 <= i < j < |es| ==> es[i].id < es[j].id
  }

  /** Primary key: a row is determined by its id. */
  ghost predicate DistinctIds(es: seq<Event>) {
    forall i, j :: 0 <= i < j < |es| ==> es[i].id != es[j].id
  }

  // ---------- stable sort by id ----------

  function InsertById(es: seq<Event>, e: Event): seq<Event> {
    if es == [] then [e]
    else if es[|es| - 1].id <= e.id then es + [e]
    else InsertById(es[..|es| - 1], e) + [es[|es| - 1]]
  }

  function SortById(es: seq<Event>): seq<Event> {
    if es == [] then [] else InsertById(SortById(es[..|es| - 1]), es[|es| - 1])
  }

  lemma {:induction false} InsertMembers(es: seq<Event>, e: Event)
    ensures multiset(InsertById(es, e)) == multiset(es) + multiset{e}
    ensures |InsertById(es, e)| == |es| + 1
    ensures forall x :: x in InsertById(es, e) <==> x in es || x == e
  {
    if es != [] {
      var n := |es| - 1;
      assert es == es[..n] + [es[n]];
      InsertMembers(es[..n], e);
    }
    assert forall x :: x in InsertById(es, e) <==> x in multiset(InsertById(es, e));
    assert forall x :: x in es <==> x in multiset(es);
  }

  lemma {:induction false} InsertSorted(es: seq<Event>, e: Event)
    requires Sorted(es)
    requires forall x :: x in es ==> x.id != e.id
    ensures Sorted(InsertById(es, e))
  {
    if es != [] && es[|es| - 1].id > e.id {
      var n := |es| - 1;
      InsertSorted(es[..n], e);
      InsertMembers(es[..n], e);
      var r := InsertById(es[..n], e);
      forall i | 0 <= i < |r| ensures r[i].id < es[n].id {
        assert r[i] in r;
        if r[i] != e { var j :| 0 <= j < n && es[j] == r[i]; }
      }
    }
  }

  /** Sorting rows with distinct ids gives the same rows in strictly increasing id order. */
  lemma {:induction false} SortByIdCorrect(es: seq<Event>)
    requires DistinctIds(es)
    ensures Sorted(SortById(es))
    ensures multiset(SortById(es)) == multiset(es)
    ensures |SortById(es)| == |es|
    ensures forall x :: x in SortById(es) <==> x in es
  {
    if es != [] {
      var n := |es| - 1;
      SortByIdCorrect(es[..n]);
      assert es == es[..n] + [es[n]];
      InsertMembers(SortById(es[..n]), es[n]);
      InsertSorted(SortById(es[..n]), es[n]);
      assert forall x :: x in SortById(es) <==> x in es;
    }
  }

  lemma {:induction false} SortOfSorted(es: seq<Event>)
    requires Sorted(es)
    ensures SortById(es) == es
  {
    if es != [] {
      var n := |es| - 1;
      SortOfSorted(es[..n]);
      assert es == es[..n] + [es[n]];
    }
  }

  // ---------- the page read ----------

  /** WHERE session_id = session AND id > afterId, in table order. */
  function Matching(table: seq<Event>, session: SessionId, afterId: int): (r: seq<Event>)
    ensures forall x :: x in r <==> x in table && x.session == session && x.id > afterId
  {
    if table == [] then []
    else
      var n := |table| - 1;
      var rest := Matching(table[..n], session, afterId);
      assert table == table[..n] + [table[n]];
      if table[n].session == session && table[n].id > afterId then rest + [table[n]] else rest
  }

  lemma {:induction false} MatchingDistinct(table: seq<Event>, session: SessionId, afterId: int)
    requires DistinctIds(table)
    ensures DistinctIds(Matching(table, session, afterId))
  {
    if table != [] {
      var n := |table| - 1;
      MatchingDistinct(table[..n], session, afterId);
      var rest := Matching(table[..n], session, afterId);
      forall x | x in rest ensures x.id != table[n].id {
        var i :| 0 <= i < n && table[..n][i] == x;
      }
    }
  }

  /** ORDER BY id LIMIT limit over the matching rows. */
  function ListAfter(table: seq<Event>, session: SessionId, afterId: int, limit: nat): (r: seq<Event>)
    ensures |r| <= limit
  {
    var rows := SortById(Matching(table, session, afterId));
    if |rows| <= limit then rows else rows[..limit]
  }

  lemma CutIsBelow(rows: seq<Event>, n: nat, x: Event, y: Event)
    requires Sorted(rows) && n <= |rows|
    requires x in rows && x !in rows[..n] && y in rows[..n]
    ensures y.id < x.id
  {
    assert rows == rows[..n] + rows[n..];
    var i :| 0 <= i < |rows[n..]| && rows[n..][i] == x;
    var j :| 0 <= j < n && rows[..n][j] == y;
    assert rows[n + i] == x && rows[j] == y;
  }

  /** The page is sorted, holds only matching rows, and leaves out only rows above its own ids;
      a page that is not full leaves out nothing. */
  lemma ListAfterCorrect(table: seq<Event>, session: SessionId, afterId: int, limit: nat)
    requires DistinctIds(table)
    ensures var page := ListAfter(table, session, afterId, limit);
      && Sorted(page)
      && (forall x :: x in page ==> x in table && x.session == session && x.id > afterId)
      && (forall x, y :: x in table && x.session == session && x.id > afterId && x !in page && y in page
            ==> y.id < x.id)
      && (forall x :: x in table && x.session == session && x.id > afterId && |page| < limit ==> x in page)
  {
    var m := Matching(table, session, afterId);
    MatchingDistinct(table, session, afterId);
    SortByIdCorrect(m);
    var rows := SortById(m);
    var page := ListAfter(table, session, afterId, limit);
    assert page == rows[..|page|];
    assert |page| < limit ==> page == rows;
    forall x, y | x in rows && x !in page && y in page ensures y.id < x.id {
      CutIsBelow(rows, |page|, x, y);
    }
  }

  // ---------- frames ----------

  function EventsOf(frames: seq<Frame>): (r: seq<Event>)
    ensures |r| <= |frames|
  {
    if frames == [] then []
    else (if frames[0].Ev? then [frames[0].event] else []) + EventsOf(frames[1..])
  }

  lemma {:induction false} EventsOfAppend(a: seq<Frame>, b: seq<Frame>)
    ensures EventsOf(a + b) == EventsOf(a) + EventsOf(b)
  {
    if a == [] {
      assert a + b == b;
    } else {
      EventsOfAppend(a[1..], b);
      assert (a + b)[1..] == a[1..] + b && (a + b)[0] == a[0];
      var head := if a[0].Ev? then [a[0].event] else [];
      assert head + (EventsOf(a[1..]) + EventsOf(b)) == head + EventsOf(a[1..]) + EventsOf(b);
    }
  }
}
