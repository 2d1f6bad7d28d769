/** From the characters of a stream to the state of the browser: what its listeners make of the text of a
    connection is what the step system makes of the frames. */
module ClientText {
  import opened Events
  import opened Sse
  import opened EventText
  import opened Delivery
  import opened Wrappers

  /** The listeners of a stream: a heartbeat changes no list, a reset closes the stream and asks for the rows after the
      cursor if the stream is current, an event is noticed. */
  function React(s: System, n: Notice): System {
    match n
    case Beats(_) => s
    case Resets(_) =>
      if Current(s.browser)
      then Offline(s, s.browser.(source := Unconnected)).(requests := s.requests + {Recovering(s.browser)})
      else s
    case Brings(e) => s.(browser := Noticed(s.browser, e))
  }

  /** Notices one after the other, as long as the stream is not closed. */
  function ReactAll(s: System, notices: seq<Option<Notice>>): System
    decreases notices
  {
    if notices == [] || s.conn.None? then s
    else ReactAll(if notices[0].Some? then React(s, notices[0].value) else s, notices[1..])
  }

  /** All frames on the wire are received. */
  function ReceiveAll(s: System): System
    decreases |s.wire|
  {
    if s.wire == [] then s else ReceiveAll(Received(s))
  }

  lemma ReactNext(s: System, n: Notice, rest: seq<Option<Notice>>)
    requires s.conn.Some?
    ensures ReactAll(s, [Some(n)] + rest) == ReactAll(React(s, n), rest)
  {
    assert ([Some(n)] + rest)[1..] == rest;
  }

  lemma {:induction false} ReceivedIsHeard(s: System)
    requires s.conn.Some?
    ensures ReceiveAll(s) == ReactAll(s.(wire := []), Meant(s.wire))
    decreases |s.wire|
  {
    if s.wire != [] {
      var quiet, rest := s.(wire := []), Meant(s.wire[1..]);
      MeantHead(s.wire);
      assert [s.wire[0]][1..] == [] && Meant([]) == [] && [] + rest == rest;
      var s' := Received(s);
      match s.wire[0] {
        case Retry =>
        case Heartbeat(timestamp) => ReactNext(quiet, Beats(timestamp), rest);
        case Ev(e) => ReactNext(quiet, Brings(e), rest);
        case Reset => ReactNext(quiet, Meant([s.wire[0]])[0].value, rest);
      }
      if s'.conn.Some? {
        ReceivedIsHeard(s');
      }
    }
  }

  /** Wherever its text is cut, a stream does to the browser what the frames that end before the cut do. */
  lemma TextIsReceived(s: System, frames: seq<Frame>, n: nat) returns (whole: nat)
    requires s.conn.Some? && s.wire == [] && n <= |EncodeAll(frames)|
    ensures CutAfter(frames, n, whole)
    ensures ReactAll(s, HearAll(Sse.Read(START, EncodeAll(frames)[..n]).messages)) == ReceiveAll(s.(wire := frames[..whole]))
  {
    whole := ClientHearsFrames(frames, n);
    ReceivedIsHeard(s.(wire := frames[..whole]));
    assert s.(wire := frames[..whole]).(wire := []) == s;
  }
}
