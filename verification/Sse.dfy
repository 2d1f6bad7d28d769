/** The wire format of the stream, read back by the event-stream interpretation rules of section 9.2.6
    of the WHATWG HTML Living Standard. */
module Sse {
  import opened Json
  import opened Events

  // ---------- encoding ----------

  function TypeName(kind: EventType): (name: string)
    ensures |name| > 0 && SingleLine(name)
  {
    match kind
    case SessionStatus => "session.status"
    case RunStarted => "run.started"
    case AssistantDelta => "assistant.delta"
    case AssistantMessage => "assistant.message"
    case ToolStarted => "tool.started"
    case ToolResult => "tool.result"
    case ScreenshotAvailable => "screenshot.available"
    case RunCompleted => "run.completed"
    case RunFailed => "run.failed"
  }

  function Envelope(e: Event): Json {
    JObj(Member("id", JInt(e.id),
      Member("session_id", JStr(e.session),
      Member("run_id", e.run,
      Member("event_type", JStr(TypeName(e.kind)),
      Member("payload", e.payload,
      Member("created_at", JStr(e.createdAt), NoMembers)))))))
  }

  const OVERFLOW_REASON: string := "客户端消费速度过慢，请使用 Last-Event-ID 重连补发。"

  function Single(key: string, value: string): Json {
    JObj(Member(key, JStr(value), NoMembers))
  }

  /** What a frame says to the client: the type and data of its message; the retry frame says nothing. */
  function Kind(f: Frame): string
    requires !f.Retry?
  {
    match f
    case Heartbeat(_) => "heartbeat"
    case Reset => "stream.reset"
    case Ev(e) => TypeName(e.kind)
  }

  function Data(f: Frame): (r: string)
    requires !f.Retry?
    ensures |r| > 0 && SingleLine(r)
  {
    match f
    case Heartbeat(timestamp) => Dumps(Single("timestamp", timestamp))
    case Reset => Dumps(Single("reason", OVERFLOW_REASON))
    case Ev(e) => Dumps(Envelope(e))
  }

  /** The lines of a frame; a blank line closes it. */
  function Lines(f: Frame): seq<string> {
    match f
    case Retry => [Line("retry", "2000")]
    case Ev(e) => [Line("id", IntText(e.id)), Line("event", Kind(f)), Line("data", Data(f))]
    case _ => [Line("event", Kind(f)), Line("data", Data(f))]
  }

  function Line(field: string, value: string): string {
    field + ": " + value
  }

  function Join(lines: seq<string>): string {
    if lines == [] then "" else lines[0] + "\n" + Join(lines[1..])
  }

  function Encode(f: Frame): string {
    Join(Lines(f)) + "\n"
  }

  function EncodeAll(frames: seq<Frame>): string {
    if frames == [] then "" else Encode(frames[0]) + EncodeAll(frames[1..])
  }

  // ---------- interpretation ----------

  datatype Message = Message(kind: string, data: string, lastEventId: string)

  /** `line` is the unfinished line; `idBuffer` becomes `lastId` when a message is dispatched. */
  datatype Reader = Reader(
    line: string,
    afterCR: bool,
    data: string,
    eventType: string,
    idBuffer: string,
    lastId: string,
    retry: string,
    messages: seq<Message>)

  const START: Reader := Reader("", false, "", "", "", "", "", [])

  function Dispatch(r: Reader): Reader {
    var cleared := r.(lastId := r.idBuffer, data := "", eventType := "");
    if r.data == "" then cleared
    else
      var n := |r.data| - 1;
      var data := if r.data[n] == LF then r.data[..n] else r.data;
      var kind := if r.eventType == "" then "message" else r.eventType;
      cleared.(messages := r.messages + [Message(kind, data, r.idBuffer)])
  }

  function Colon(line: string): (i: nat)
    ensures i <= |line|
    ensures forall j :: 0 <= j < i ==> line[j] != ':'
    ensures i < |line| ==> line[i] == ':'
  {
    if line == "" || line[0] == ':' then 0 else 1 + Colon(line[1..])
  }

  function Field(r: Reader, field: string, value: string): Reader {
    if field == "event" then r.(eventType := value)
    else if field == "data" then r.(data := r.data + value + "\n")
    else if field == "id" then (if '\0' in value then r else r.(idBuffer := value))
    else if field == "retry" then (if Digits(value) then r.(retry := value) else r)
    else r
  }

  function ProcessLine(r: Reader, line: string): Reader {
    if line == "" then Dispatch(r)
    else
      var i := Colon(line);
      if i == 0 then r
      else if i == |line| then Field(r, line, "")
      else if i + 1 < |line| && line[i + 1] == ' ' then Field(r, line[..i], line[i + 2..])
      else Field(r, line[..i], line[i + 1..])
  }

  /** One character: lines end in CR LF, LF or CR. */
  function Feed(r: Reader, c: char): Reader {
    if c == LF && r.afterCR then r.(afterCR := false)
    else if c == LF || c == CR then ProcessLine(r.(line := "", afterCR := c == CR), r.line)
    else r.(line := r.line + [c], afterCR := false)
  }

  function Read(r: Reader, s: string): Reader
    decreases s
  {
    if s == "" then r else Read(Feed(r, s[0]), s[1..])
  }

  // ---------- proofs ----------

  lemma {:induction false} ReadAppend(r: Reader, a: string, b: string)
    ensures Read(r, a + b) == Read(Read(r, a), b)
    decreases a
  {
    if a == "" {
      assert a + b == b;
    } else {
      ReadAppend(Feed(r, a[0]), a[1..], b);
      assert (a + b)[1..] == a[1..] + b;
    }
  }

  lemma {:induction false} ReadPlain(r: Reader, s: string)
    requires SingleLine(s) && !r.afterCR
    ensures Read(r, s) == r.(line := r.line + s)
    decreases s
  {
    if s == "" {
      assert r.line + s == r.line;
    } else {
      assert s[0] in s && forall c :: c in s[1..] ==> c in s;
      ReadPlain(Feed(r, s[0]), s[1..]);
      assert r.line + [s[0]] + s[1..] == r.line + s;
    }
  }

  /** Between lines. */
  predicate Idle(r: Reader) {
    r.line == "" && !r.afterCR
  }

  lemma ReadLine(r: Reader, line: string)
    requires SingleLine(line) && Idle(r)
    ensures Read(r, line + "\n") == ProcessLine(r, line) && Idle(ProcessLine(r, line))
  {
    ReadAppend(r, line, "\n");
    ReadPlain(r, line);
    assert "" + line == line;
    ReadBreak(r.(line := line));
    assert r.(line := line).(line := "") == r;
    StaysIdle(r, line);
  }

  lemma ReadBreak(r: Reader)
    requires !r.afterCR
    ensures Read(r, "\n") == ProcessLine(r.(line := ""), r.line)
  {
    var next := Feed(r, '\n');
    assert "\n"[1..] == "";
    assert Read(next, "") == next;
    assert r.(line := "", afterCR := false) == r.(line := "");
  }

  lemma StaysIdle(r: Reader, line: string)
    requires Idle(r)
    ensures Idle(ProcessLine(r, line))
  {
  }

  ghost predicate PlainLines(lines: seq<string>) {
    forall i :: 0 <= i < |lines| ==> lines[i] != "" && SingleLine(lines[i])
  }

  function ProcessAll(r: Reader, lines: seq<string>): Reader
    decreases lines
  {
    if lines == [] then r else ProcessAll(ProcessLine(r, lines[0]), lines[1..])
  }

  lemma {:induction false} ReadLines(r: Reader, lines: seq<string>)
    requires PlainLines(lines) && Idle(r)
    ensures Read(r, Join(lines)) == ProcessAll(r, lines) && Idle(ProcessAll(r, lines))
    decreases lines
  {
    if lines != [] {
      ReadLine(r, lines[0]);
      ReadAppend(r, lines[0] + "\n", Join(lines[1..]));
      ReadLines(ProcessLine(r, lines[0]), lines[1..]);
      assert Join(lines) == (lines[0] + "\n") + Join(lines[1..]);
    }
  }

  lemma PlainLine(field: string, value: string)
    requires SingleLine(field) && SingleLine(value)
    ensures Line(field, value) != "" && SingleLine(Line(field, value))
  {
  }

  lemma FrameLines(f: Frame)
    ensures PlainLines(Lines(f))
  {
    if f.Retry? {
      PlainLine("retry", "2000");
    } else {
      if f.Ev? { PlainLine("id", IntText(f.event.id)); }
      PlainLine("event", Kind(f));
      PlainLine("data", Data(f));
    }
  }

  lemma FieldLine(r: Reader, field: string, value: string)
    requires field == "id" || field == "event" || field == "data" || field == "retry"
    ensures ProcessLine(r, Line(field, value)) == Field(r, field, value)
  {
    var line := Line(field, value);
    var n := |field|;
    assert line[n] == ':' && line[n + 1] == ' ';
    assert forall j :: 0 <= j < n ==> line[j] == field[j] && field[j] != ':';
    assert Colon(line) == n;
    assert line[..n] == field && line[n + 2..] == value;
  }

  /** The message a frame stands for, given the last event id before it. */
  function MessageOf(f: Frame, lastId: string): seq<Message> {
    if f.Retry? then [] else [Message(Kind(f), Data(f), IdAfter(f, lastId))]
  }

  function IdAfter(f: Frame, lastId: string): string {
    if f.Ev? then IntText(f.event.id) else lastId
  }

  function MessagesOf(frames: seq<Frame>, lastId: string): seq<Message>
    decreases frames
  {
    if frames == [] then []
    else MessageOf(frames[0], lastId) + MessagesOf(frames[1..], IdAfter(frames[0], lastId))
  }

  function LastIdOf(frames: seq<Frame>, lastId: string): string
    decreases frames
  {
    if frames == [] then lastId else LastIdOf(frames[1..], IdAfter(frames[0], lastId))
  }

  /** Between frames: nothing buffered, and the id buffer is the last event id. */
  predicate Clean(r: Reader) {
    Idle(r) && r.data == "" && r.eventType == "" && r.idBuffer == r.lastId
  }

  lemma IdHasNoNul(n: int)
    ensures '\0' !in IntText(n)
  {
    var digits := Decimal(if n < 0 then -n else n);
    assert forall i :: 0 <= i < |digits| ==> digits[i] >= '0';
  }

  lemma IdLine(r: Reader, n: int)
    ensures ProcessLine(r, Line("id", IntText(n))) == r.(idBuffer := IntText(n))
  {
    FieldLine(r, "id", IntText(n));
    IdHasNoNul(n);
  }

  lemma EventLine(r: Reader, kind: string)
    ensures ProcessLine(r, Line("event", kind)) == r.(eventType := kind)
  {
    FieldLine(r, "event", kind);
  }

  lemma DataLine(r: Reader, data: string)
    requires r.data == ""
    ensures ProcessLine(r, Line("data", data)) == r.(data := data + "\n")
  {
    FieldLine(r, "data", data);
    assert r.data + data == data;
  }

  lemma RetryLine(r: Reader)
    ensures ProcessLine(r, Line("retry", "2000")) == r.(retry := "2000")
  {
    FieldLine(r, "retry", "2000");
  }

  lemma ProcessMore(r: Reader, a: string, lines: seq<string>)
    ensures ProcessAll(r, [a] + lines) == ProcessAll(ProcessLine(r, a), lines)
  {
    assert ([a] + lines)[1..] == lines;
  }

  lemma ProcessTwo(r: Reader, a: string, b: string)
    ensures ProcessAll(r, [a, b]) == ProcessLine(ProcessLine(r, a), b)
  {
    ProcessMore(r, a, [b]);
    ProcessMore(ProcessLine(r, a), b, []);
    assert [a] + [b] == [a, b] && [b] + [] == [b];
  }

  lemma KindAndData(r: Reader, kind: string, data: string)
    requires r.data == ""
    ensures ProcessAll(r, [Line("event", kind), Line("data", data)]) == r.(eventType := kind, data := data + "\n")
  {
    EventLine(r, kind);
    DataLine(r.(eventType := kind), data);
    ProcessTwo(r, Line("event", kind), Line("data", data));
  }

  lemma BodyIsRead(r: Reader, f: Frame)
    requires Clean(r) && !f.Retry?
    ensures ProcessAll(r, Lines(f)) ==
            r.(idBuffer := IdAfter(f, r.lastId), eventType := Kind(f), data := Data(f) + "\n")
  {
    if f.Ev? {
      var id := IntText(f.event.id);
      var tail := [Line("event", Kind(f)), Line("data", Data(f))];
      IdLine(r, f.event.id);
      ProcessMore(r, Line("id", id), tail);
      KindAndData(r.(idBuffer := id), Kind(f), Data(f));
      assert Lines(f) == [Line("id", id)] + tail;
    } else {
      KindAndData(r, Kind(f), Data(f));
    }
  }

  lemma CloseFrame(r: Reader, lines: seq<string>)
    requires PlainLines(lines) && Idle(r)
    ensures Read(r, Join(lines) + "\n") == Dispatch(ProcessAll(r, lines)) && Idle(Dispatch(ProcessAll(r, lines)))
  {
    ReadLines(r, lines);
    ReadAppend(r, Join(lines), "\n");
    ReadLine(ProcessAll(r, lines), "");
    assert "" + "\n" == "\n";
  }

  lemma RetryIsRead(r: Reader)
    ensures ProcessAll(r, [Line("retry", "2000")]) == r.(retry := "2000")
  {
    RetryLine(r);
    ProcessMore(r, Line("retry", "2000"), []);
    assert [Line("retry", "2000")] + [] == [Line("retry", "2000")];
  }

  /** A whole frame is dispatched as its message and leaves nothing behind. */
  lemma FrameIsRead(r: Reader, f: Frame)
    requires Clean(r)
    ensures var r' := Read(r, Encode(f));
      && Clean(r')
      && r'.messages == r.messages + MessageOf(f, r.lastId)
      && r'.lastId == IdAfter(f, r.lastId)
      && r'.retry == if f.Retry? then "2000" else r.retry
  {
    FrameLines(f);
    CloseFrame(r, Lines(f));
    if f.Retry? {
      RetryIsRead(r);
      assert r.messages + [] == r.messages;
    } else {
      BodyIsRead(r, f);
      assert (Data(f) + "\n")[..|Data(f)|] == Data(f);
    }
  }

  /** Interpreting the concatenation of any frames recovers exactly their messages: every event with its
      id, type and data, in order; retry, heartbeat and reset frames never change the last event id. */
  lemma {:induction false} StreamRoundTrip(r: Reader, frames: seq<Frame>)
    requires Clean(r)
    ensures var r' := Read(r, EncodeAll(frames));
      && Clean(r')
      && r'.messages == r.messages + MessagesOf(frames, r.lastId)
      && r'.lastId == LastIdOf(frames, r.lastId)
    decreases frames
  {
    if frames == [] {
      assert r.messages + [] == r.messages;
    } else {
      var head, tail := Encode(frames[0]), EncodeAll(frames[1..]);
      var m := Read(r, head);
      FrameIsRead(r, frames[0]);
      assert Read(r, EncodeAll(frames)) == Read(m, tail) by { ReadAppend(r, head, tail); }
      StreamRoundTrip(m, frames[1..]);
      Split(r.messages, frames, r.lastId);
    }
  }

  lemma Regroup(a: seq<Message>, b: seq<Message>, c: seq<Message>)
    ensures a + b + c == a + (b + c)
  {
  }

  lemma Split(before: seq<Message>, frames: seq<Frame>, lastId: string)
    requires frames != []
    ensures before + MessageOf(frames[0], lastId) + MessagesOf(frames[1..], IdAfter(frames[0], lastId))
         == before + MessagesOf(frames, lastId)
  {
    Regroup(before, MessageOf(frames[0], lastId), MessagesOf(frames[1..], IdAfter(frames[0], lastId)));
  }

  // ---------- a connection cut at any character ----------

  lemma {:induction false} CutBody(r: Reader, lines: seq<string>, n: nat)
    requires PlainLines(lines) && Idle(r) && n <= |Join(lines)|
    ensures var r' := Read(r, Join(lines)[..n]);
      r'.messages == r.messages && r'.lastId == r.lastId
    decreases lines
  {
    if lines == [] {
      assert Join(lines)[..n] == "";
    } else {
      var head := lines[0] + "\n";
      assert Join(lines) == head + Join(lines[1..]);
      if n <= |lines[0]| {
        assert Join(lines)[..n] == lines[0][..n];
        assert forall c :: c in lines[0][..n] ==> c in lines[0];
        ReadPlain(r, lines[0][..n]);
      } else {
        var m := n - |head|;
        assert Join(lines)[..n] == head + Join(lines[1..])[..m];
        ReadAppend(r, head, Join(lines[1..])[..m]);
        ReadLine(r, lines[0]);
        CutBody(ProcessLine(r, lines[0]), lines[1..], m);
      }
    }
  }

  /** The first `whole` frames are those that end within the first n characters. */
  predicate CutAfter(frames: seq<Frame>, n: nat, whole: nat) {
    && whole <= |frames|
    && |EncodeAll(frames[..whole])| <= n
    && (whole < |frames| ==> n < |EncodeAll(frames[..whole + 1])|)
  }

  lemma EncodeTake(frames: seq<Frame>, k: nat)
    requires 0 < k <= |frames|
    ensures |EncodeAll(frames[..k])| == |Encode(frames[0])| + |EncodeAll(frames[1..][..k - 1])|
  {
    assert frames[..k][1..] == frames[1..][..k - 1] && frames[..k][0] == frames[0];
  }

  lemma {:induction false} TakeIsShorter(frames: seq<Frame>, k: nat)
    requires k <= |frames|
    ensures |EncodeAll(frames[..k])| <= |EncodeAll(frames)|
    decreases k
  {
    if k == 0 {
      assert frames[..0] == [];
    } else {
      EncodeTake(frames, k);
      TakeIsShorter(frames[1..], k - 1);
    }
  }

  lemma CutLater(frames: seq<Frame>, n: nat, more: nat)
    requires frames != [] && |Encode(frames[0])| <= n && CutAfter(frames[1..], n - |Encode(frames[0])|, more)
    ensures CutAfter(frames, n, more + 1)
  {
    EncodeTake(frames, more + 1);
    if more + 1 < |frames| { EncodeTake(frames, more + 2); }
  }

  lemma CutAtOnce(frames: seq<Frame>, n: nat)
    requires frames == [] || n < |Encode(frames[0])|
    ensures CutAfter(frames, n, 0)
  {
    assert frames[..0] == [];
    if frames != [] { EncodeTake(frames, 1); }
  }

  /** However the bytes are cut, the client has seen exactly the frames that end before the cut: their messages,
      and the last event id of the last complete one, which is the cursor it reconnects with. */
  lemma {:induction false} CutStream(r: Reader, frames: seq<Frame>, n: nat) returns (whole: nat)
    requires Clean(r) && n <= |EncodeAll(frames)|
    ensures CutAfter(frames, n, whole)
    ensures var r' := Read(r, EncodeAll(frames)[..n]);
      && r'.messages == r.messages + MessagesOf(frames[..whole], r.lastId)
      && r'.lastId == LastIdOf(frames[..whole], r.lastId)
    decreases frames
  {
    if frames == [] || n < |Encode(frames[0])| {
      whole := 0;
      CutAtOnce(frames, n);
      CutFirst(r, frames, n);
      assert frames[..0] == [] && r.messages + [] == r.messages;
    } else {
      var m := Read(r, Encode(frames[0]));
      FrameIsRead(r, frames[0]);
      PassFrame(r, frames, n);
      var more := CutStream(m, frames[1..], n - |Encode(frames[0])|);
      whole := more + 1;
      CutLater(frames, n, more);
      SeenLater(r, frames, more);
    }
  }

  /** Within the first frame nothing has been seen. */
  lemma CutFirst(r: Reader, frames: seq<Frame>, n: nat)
    requires Clean(r) && n <= |EncodeAll(frames)| && (frames == [] || n < |Encode(frames[0])|)
    ensures var r' := Read(r, EncodeAll(frames)[..n]); r'.messages == r.messages && r'.lastId == r.lastId
  {
    if frames == [] {
      assert EncodeAll(frames)[..n] == "";
    } else {
      assert EncodeAll(frames)[..n] == Join(Lines(frames[0]))[..n];
      FrameLines(frames[0]);
      CutBody(r, Lines(frames[0]), n);
    }
  }

  lemma PassFrame(r: Reader, frames: seq<Frame>, n: nat)
    requires frames != [] && |Encode(frames[0])| <= n <= |EncodeAll(frames)|
    ensures n - |Encode(frames[0])| <= |EncodeAll(frames[1..])|
    ensures Read(r, EncodeAll(frames)[..n])
         == Read(Read(r, Encode(frames[0])), EncodeAll(frames[1..])[..n - |Encode(frames[0])|])
  {
    var head, tail := Encode(frames[0]), EncodeAll(frames[1..]);
    assert EncodeAll(frames)[..n] == head + tail[..n - |head|];
    ReadAppend(r, head, tail[..n - |head|]);
  }

  lemma SeenLater(r: Reader, frames: seq<Frame>, more: nat)
    requires frames != [] && more < |frames|
    ensures var seen, lastId := frames[..more + 1], IdAfter(frames[0], r.lastId);
      && r.messages + MessageOf(frames[0], r.lastId) + MessagesOf(frames[1..][..more], lastId)
         == r.messages + MessagesOf(seen, r.lastId)
      && LastIdOf(frames[1..][..more], lastId) == LastIdOf(seen, r.lastId)
  {
    var seen := frames[..more + 1];
    assert seen[1..] == frames[1..][..more] && seen[0] == frames[0];
    Split(r.messages, seen, r.lastId);
  }

  /** The id of a received event, read back as a number, is the id of the row. */
  lemma IdRoundTrip(e: Event)
    requires e.id >= 0
    ensures Digits(IntText(e.id)) && ParseDecimal(IntText(e.id)) == e.id
  {
    DecimalRoundTrip(e.id);
  }
}
