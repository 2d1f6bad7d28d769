/** What the browser makes of a stream: the messages of known types, their data parsed as events. */
module EventText {
  import opened Json
  import opened JsonText
  import opened Events
  import opened Sse
  import opened Wrappers

  /** The type a message name stands for; the names the browser listens to as events. */
  function KindOf(name: string): Option<EventType> {
    if name == "session.status" then Some(SessionStatus)
    else if name == "run.started" then Some(RunStarted)
    else if name == "assistant.delta" then Some(AssistantDelta)
    else if name == "assistant.message" then Some(AssistantMessage)
    else if name == "tool.started" then Some(ToolStarted)
    else if name == "tool.result" then Some(EventType.ToolResult)
    else if name == "screenshot.available" then Some(ScreenshotAvailable)
    else if name == "run.completed" then Some(RunCompleted)
    else if name == "run.failed" then Some(RunFailed)
    else None
  }

  lemma KindRoundTrip(kind: EventType)
    ensures KindOf(TypeName(kind)) == Some(kind)
  {
  }

  /** A property of a parsed object; the last one of a name counts. */
  function Property(members: Members, key: string): Option<Json> {
    match members
    case NoMembers => None
    case Member(k, value, rest) =>
      var later := Property(rest, key);
      if later.Some? then later else if k == key then Some(value) else None
  }

  function EventIn(j: Json): Option<Event> {
    if !j.JObj? then None
    else
      var id, session, run := Property(j.members, "id"), Property(j.members, "session_id"), Property(j.members, "run_id");
      var kind, payload, at := Property(j.members, "event_type"), Property(j.members, "payload"), Property(j.members, "created_at");
      if id.Some? && id.value.JInt? && session.Some? && session.value.JStr? && run.Some?
         && kind.Some? && kind.value.JStr? && KindOf(kind.value.s).Some? && payload.Some? && at.Some? && at.value.JStr?
      then Some(Event(id.value.n, session.value.s, run.value, KindOf(kind.value.s).value, payload.value, at.value.s))
      else None
  }

  /** The event in the data of a message, if it holds one. */
  function ParseEvent(data: string): Option<Event> {
    var p := ReadValue(data);
    if p.Got? && p.rest == "" then EventIn(p.value) else None
  }

  lemma OneProperty(k: string, value: Json, rest: Members)
    ensures Property(rest, k).None? ==> Property(Member(k, value, rest), k) == Some(value)
    ensures forall key :: key != k ==> Property(Member(k, value, rest), key) == Property(rest, key)
  {
  }

  lemma EnvelopeRoundTrip(e: Event)
    ensures EventIn(Envelope(e)) == Some(e)
  {
    KindRoundTrip(e.kind);
    var at := Member("created_at", JStr(e.createdAt), NoMembers);
    var payload := Member("payload", e.payload, at);
    var kind := Member("event_type", JStr(TypeName(e.kind)), payload);
    var run := Member("run_id", e.run, kind);
    var session := Member("session_id", JStr(e.session), run);
    OneProperty("created_at", JStr(e.createdAt), NoMembers);
    OneProperty("payload", e.payload, at);
    OneProperty("event_type", JStr(TypeName(e.kind)), payload);
    OneProperty("run_id", e.run, kind);
    OneProperty("session_id", JStr(e.session), run);
    OneProperty("id", JInt(e.id), session);
    var all := Member("id", JInt(e.id), session);
    assert Property(all, "id") == Some(JInt(e.id)) && Property(all, "session_id") == Some(JStr(e.session));
    assert Property(all, "run_id") == Some(e.run) && Property(all, "event_type") == Some(JStr(TypeName(e.kind)));
    assert Property(all, "payload") == Some(e.payload) && Property(all, "created_at") == Some(JStr(e.createdAt));
  }

  /** Parsing the data of an event frame gives the event, whatever its payload holds. */
  lemma DataIsEvent(e: Event)
    ensures ParseEvent(Data(Ev(e))) == Some(e)
  {
    var text := Dumps(Envelope(e));
    ValueRoundTrip(Envelope(e), "");
    assert text + "" == text;
    EnvelopeRoundTrip(e);
  }

  /** The events the browser adds: from messages whose type it listens to. */
  function Added(messages: seq<Message>): seq<Option<Event>> {
    if messages == [] then []
    else
      var n := |messages| - 1;
      Added(messages[..n]) + (if KindOf(messages[n].kind).Some? then [ParseEvent(messages[n].data)] else [])
  }

  function Parsed(events: seq<Event>): (r: seq<Option<Event>>)
    ensures |r| == |events| && forall i :: 0 <= i < |r| ==> r[i] == Some(events[i])
  {
    seq(|events|, i requires 0 <= i < |events| => Some(events[i]))
  }

  lemma {:induction false} AddedAppend(a: seq<Message>, b: seq<Message>)
    ensures Added(a + b) == Added(a) + Added(b)
  {
    if b == [] {
      assert a + b == a;
    } else {
      var n := |b| - 1;
      AddedAppend(a, b[..n]);
      assert (a + b)[..|a + b| - 1] == a + b[..n] && (a + b)[|a + b| - 1] == b[n];
    }
  }

  lemma OtherNames()
    ensures KindOf("heartbeat").None? && KindOf("stream.reset").None?
  {
  }

  lemma FrameAdded(f: Frame, lastId: string)
    ensures Added(MessageOf(f, lastId)) == if f.Ev? then [Some(f.event)] else []
  {
    if !f.Retry? {
      var m := Message(Kind(f), Data(f), IdAfter(f, lastId));
      assert [m][..0] == [] && Added([]) == [];
      OtherNames();
      if f.Ev? {
        KindRoundTrip(f.event.kind);
        DataIsEvent(f.event);
      }
    }
  }

  lemma {:induction false} FramesAdded(frames: seq<Frame>, lastId: string)
    ensures Added(MessagesOf(frames, lastId)) == Parsed(EventsOf(frames))
    decreases frames
  {
    if frames != [] {
      var head, tail := MessageOf(frames[0], lastId), MessagesOf(frames[1..], IdAfter(frames[0], lastId));
      FrameAdded(frames[0], lastId);
      FramesAdded(frames[1..], IdAfter(frames[0], lastId));
      AddedAppend(head, tail);
      ParsedAppend(if frames[0].Ev? then [frames[0].event] else [], EventsOf(frames[1..]));
    }
  }

  lemma ParsedAppend(a: seq<Event>, b: seq<Event>)
    ensures Parsed(a + b) == Parsed(a) + Parsed(b)
    ensures |a| == 1 ==> Parsed(a) == [Some(a[0])]
  {
  }

  /** From the frames a connection yields to the events the browser adds, through encoding, the event-stream
      rules and JSON: wherever the connection is cut, exactly the events of the frames that end before the cut, in
      order, each as it was committed. */
  lemma BrowserAddsEmittedEvents(frames: seq<Frame>, n: nat) returns (whole: nat)
    requires n <= |EncodeAll(frames)|
    ensures CutAfter(frames, n, whole)
    ensures n == |EncodeAll(frames)| ==> whole == |frames|
    ensures Added(Read(START, EncodeAll(frames)[..n]).messages) == Parsed(EventsOf(frames[..whole]))
  {
    whole := CutStream(START, frames, n);
    assert START.messages + MessagesOf(frames[..whole], "") == MessagesOf(frames[..whole], "");
    FramesAdded(frames[..whole], "");
    if whole < |frames| { TakeIsShorter(frames, whole + 1); }
  }

  // ---------- what the listeners hear ----------

  /** What a message says to a client: the listeners of the browser by name, and the data as they find it. */
  datatype Notice =
    | Beats(timestamp: string)
    | Resets(reason: string)
    | Brings(event: Event)

  /** The one property of a parsed object with this name, if it is a string. */
  function StringIn(data: string, key: string): Option<string> {
    var p := ReadValue(data);
    if p.Got? && p.rest == "" && p.value.JObj? && Property(p.value.members, key).Some?
       && Property(p.value.members, key).value.JStr?
    then Some(Property(p.value.members, key).value.s)
    else None
  }

  function Hear(m: Message): Option<Notice> {
    if m.kind == "heartbeat" then
      (if StringIn(m.data, "timestamp").Some? then Some(Beats(StringIn(m.data, "timestamp").value)) else None)
    else if m.kind == "stream.reset" then
      (if StringIn(m.data, "reason").Some? then Some(Resets(StringIn(m.data, "reason").value)) else None)
    else if KindOf(m.kind).Some? && ParseEvent(m.data).Some? && ParseEvent(m.data).value.kind == KindOf(m.kind).value
    then Some(Brings(ParseEvent(m.data).value))
    else None
  }

  function HearAll(messages: seq<Message>): seq<Option<Notice>> {
    if messages == [] then []
    else
      var n := |messages| - 1;
      HearAll(messages[..n]) + [Hear(messages[n])]
  }

  /** What the frames of a connection mean, in order; the retry frame is no message. */
  function Meant(frames: seq<Frame>): seq<Option<Notice>>
    decreases frames
  {
    if frames == [] then []
    else
      (match frames[0]
       case Retry => []
       case Heartbeat(timestamp) => [Some(Beats(timestamp))]
       case Reset => [Some(Resets("客户端消费速度过慢，请使用 Last-Event-ID 重连补发。"))]
       case Ev(e) => [Some(Brings(e))])
      + Meant(frames[1..])
  }

  lemma SingleIsString(key: string, value: string)
    ensures StringIn(Dumps(Single(key, value)), key) == Some(value)
  {
    ValueRoundTrip(Single(key, value), "");
    assert Dumps(Single(key, value)) + "" == Dumps(Single(key, value));
    OneProperty(key, JStr(value), NoMembers);
  }

  lemma FrameHeard(f: Frame, lastId: string)
    ensures HearAll(MessageOf(f, lastId)) == Meant([f])
  {
    assert [f][1..] == [] && Meant([]) == [] && HearAll([]) == [];
    if !f.Retry? {
      var m := Message(Kind(f), Data(f), IdAfter(f, lastId));
      assert [m][..0] == [];
      match f
      case Heartbeat(timestamp) => SingleIsString("timestamp", timestamp);
      case Reset => SingleIsString("reason", OVERFLOW_REASON);
      case Ev(e) =>
        KindRoundTrip(e.kind);
        OtherNames();
        DataIsEvent(e);
      case Retry =>
    }
  }

  lemma {:induction false} HearAppend(a: seq<Message>, b: seq<Message>)
    ensures HearAll(a + b) == HearAll(a) + HearAll(b)
  {
    if b == [] {
      assert a + b == a;
    } else {
      var n := |b| - 1;
      HearAppend(a, b[..n]);
      assert (a + b)[..|a + b| - 1] == a + b[..n] && (a + b)[|a + b| - 1] == b[n];
    }
  }

  lemma MeantHead(frames: seq<Frame>)
    requires frames != []
    ensures Meant(frames) == Meant([frames[0]]) + Meant(frames[1..])
  {
    assert [frames[0]][1..] == [] && Meant([]) == [];
  }

  lemma {:induction false} FramesHeard(frames: seq<Frame>, lastId: string)
    ensures HearAll(MessagesOf(frames, lastId)) == Meant(frames)
    decreases frames
  {
    if frames != [] {
      FrameHeard(frames[0], lastId);
      FramesHeard(frames[1..], IdAfter(frames[0], lastId));
      HearAppend(MessageOf(frames[0], lastId), MessagesOf(frames[1..], IdAfter(frames[0], lastId)));
      MeantHead(frames);
    }
  }

  /** From the frames a connection yields to what the client is told, through encoding, the event-stream rules and
      JSON, wherever the connection is cut: each heartbeat with its timestamp, each reset with its reason and each event as
      it was committed, under its own name, in order, and nothing else. */
  lemma ClientHearsFrames(frames: seq<Frame>, n: nat) returns (whole: nat)
    requires n <= |EncodeAll(frames)|
    ensures CutAfter(frames, n, whole)
    ensures HearAll(Read(START, EncodeAll(frames)[..n]).messages) == Meant(frames[..whole])
  {
    whole := CutStream(START, frames, n);
    assert START.messages + MessagesOf(frames[..whole], "") == MessagesOf(frames[..whole], "");
    FramesHeard(frames[..whole], "");
  }
}
