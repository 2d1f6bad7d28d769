/** When a connection overflows, and that the client is told. */
module StreamOverflow {
  import opened Events
  import opened Stream
  import opened Delivery
  import opened DeliverySafety
  import opened DeliveryExact
  import opened DeliveryTheorems
  import opened Wrappers

  /** The live queue is just the overflow marker, or the connection has ended on it. */
  predicate Overflown(k: Conn) {
    k.phase.Ended? || (k.phase.Streaming? && k.queue == [Overflow])
  }

  /** Events that the pump has taken out of the subscription and the generator has not consumed. */
  function Waiting(k: Conn): int {
    k.pumped - k.taken
  }

  ghost predicate OverflowInv(size: int, k: Conn) {
    if Overflown(k) then 0 < size && Waiting(k) == size + 1 else 0 < size ==> Waiting(k) <= size
  }

  lemma PumpOverflow(c: Config, k: Conn)
    requires QueueInv(c, k) && OverflowInv(c.queueSize, k)
    requires k.phase.Streaming? && k.pumping && k.pumped < |k.received|
    ensures OverflowInv(c.queueSize, PumpOne(k, c.queueSize))
  {
    var k' := PumpOne(k, c.queueSize);
    assert forall i :: 0 <= i < |k.queue| ==> k.queue[i].Live?;
    assert k'.queue == [Overflow] ==> k'.queue[0].Overflow?;
  }

  lemma TakeOverflow(c: Config, k: Conn)
    requires QueueInv(c, k) && OverflowInv(c.queueSize, k) && k.phase.Streaming? && k.queue != []
    ensures OverflowInv(c.queueSize, Take(k))
  {
    if k.pumping {
      assert forall i :: 0 <= i < |k.queue| ==> k.queue[i].Live?;
      assert k.queue != [Overflow] by { assert k.queue[0].Live?; }
      assert |k.queue| > 1 ==> Take(k).queue[0] == k.queue[1];
      assert Take(k).queue != [Overflow] && !Overflown(Take(k));
    } else {
      assert k.queue[0] == Overflow;
    }
  }

  lemma StartOverflow(c: Config, k: Conn)
    requires QueueInv(c, k) && (k.phase.Reading? || k.phase.Sending?)
    ensures OverflowInv(c.queueSize, k) && OverflowInv(c.queueSize, GoLive(k))
    ensures k.phase.Sending? && k.phase.rest != [] ==> OverflowInv(c.queueSize, SendRow(k))
  {
    assert [Overflow] != [];
  }

  lemma StepOverflow(c: Config, s: System, step: Step)
    requires Inv(c, s) && Enabled(c, s, step) && (s.conn.Some? ==> OverflowInv(c.queueSize, s.conn.value))
    ensures Apply(c, s, step).conn.Some? ==> OverflowInv(c.queueSize, Apply(c, s, step).conn.value)
  {
    match step
    case Deliver => TakeOverflow(c, s.conn.value);
    case Pump => PumpOverflow(c, s.conn.value);
    case Read => StartOverflow(c, s.conn.value);
    case Send => StartOverflow(c, s.conn.value);
    case Publish(_) =>
    case _ => ConnFrame(c, s, step);
  }

  /** Over every run a connection overflows exactly when the pump has taken one event more than the queue holds
      beyond those consumed; with a size of zero or less none ever does. */
  lemma {:induction false} OverflowsExactly(c: Config, steps: seq<Step>)
    requires Run(c, steps).At? && Run(c, steps).state.conn.Some?
    ensures var k := Run(c, steps).state.conn.value;
      && (Overflown(k) <==> 0 < c.queueSize && k.pumped - k.taken == c.queueSize + 1)
      && (0 < c.queueSize ==> k.pumped - k.taken <= c.queueSize + 1)
      && OverflowInv(c.queueSize, k)
  {
    if steps != [] {
      var n := |steps| - 1;
      RunKeeps(c, steps[..n]);
      if Run(c, steps[..n]).state.conn.Some? { OverflowsExactly(c, steps[..n]); }
      StepOverflow(c, Run(c, steps[..n]).state, steps[n]);
    }
  }

  // ---------- the reset frame ----------

  /** Only a connection that has ended has yielded a reset, and nothing after it; while the browser heeds the
      stream, the reset is still to be received. */
  ghost predicate ResetInv(s: System) {
    && (forall i :: 0 <= i < |s.wire| && s.wire[i].Reset? ==>
          i == |s.wire| - 1 && s.conn.Some? && s.conn.value.phase.Ended?)
    && (s.conn.Some? && s.conn.value.phase.Ended? && Current(s.browser) ==>
          s.wire != [] && s.wire[|s.wire| - 1].Reset?)
  }

  /** A move of a connection that goes on, with frames that are no resets. */
  lemma MoveReset(s: System, k: Conn, frames: seq<Frame>)
    requires ResetInv(s) && s.conn.Some? && !s.conn.value.phase.Ended? && !k.phase.Ended?
    requires forall i :: 0 <= i < |frames| ==> !frames[i].Reset?
    ensures ResetInv(WithConn(s, k, frames))
  {
  }

  lemma DeliverReset(s: System)
    requires ResetInv(s) && s.conn.Some? && s.conn.value.phase.Streaming? && s.conn.value.queue != []
    ensures ResetInv(WithConn(s, Take(s.conn.value), TakeFrames(s.conn.value)))
  {
    var k := s.conn.value;
    if k.queue[0].Overflow? {
      var wire := s.wire + TakeFrames(k);
      assert wire[|wire| - 1] == Reset && |wire| == |s.wire| + 1;
    } else {
      MoveReset(s, Take(k), TakeFrames(k));
    }
  }

  lemma ReceiveReset(s: System)
    requires ResetInv(s) && s.wire != []
    ensures ResetInv(Received(s))
  {
    var s' := Received(s);
    ReceivedFrame(s);
    if s.wire[0].Reset? {
      assert |s.wire| == 1;
    } else {
      assert s'.wire == s.wire[1..] && s'.conn == s.conn;
      assert Current(s'.browser) == Current(s.browser);
    }
  }

  lemma StepReset(c: Config, s: System, step: Step)
    requires Inv(c, s) && ResetInv(s) && Enabled(c, s, step)
    ensures ResetInv(Apply(c, s, step))
  {
    if step.Deliver? {
      DeliverReset(s);
    } else if step.Receive? {
      ReceiveReset(s);
    } else if step.Read? {
      MoveReset(s, Replayed(s.browser, s.conn.value, s.table), []);
    } else if step.Send? {
      MoveReset(s, SendRow(s.conn.value), [Ev(s.conn.value.phase.rest[0])]);
    } else if step.Pump? {
      MoveReset(s, PumpOne(s.conn.value, c.queueSize), []);
    } else if step.Beat? {
      MoveReset(s, s.conn.value, [Heartbeat(step.timestamp)]);
    } else if step.Select? || step.Close? || step.Drop? || step.Resume? || step.Connect? {
      OfflineReset(c, s, step);
    } else {
      AppendReset(c, s, step);
    }
  }

  lemma SameReset(s: System, s': System)
    requires ResetInv(s) && s'.wire == s.wire && Current(s'.browser) == Current(s.browser)
    requires s'.conn.Some? == s.conn.Some? && (s.conn.Some? ==> s'.conn.value.phase == s.conn.value.phase)
    ensures ResetInv(s')
  {
  }

  lemma AppendReset(c: Config, s: System, step: Step)
    requires ResetInv(s) && Enabled(c, s, step)
    requires step.Insert? || step.Abort? || step.Commit? || step.Publish? || step.PublishFails? || step.Answer? || step.Fail?
    ensures ResetInv(Apply(c, s, step))
  {
    SameReset(s, Apply(c, s, step));
  }

  lemma OfflineReset(c: Config, s: System, step: Step)
    requires ResetInv(s) && Enabled(c, s, step)
    requires step.Select? || step.Close? || step.Drop? || step.Resume? || step.Connect?
    ensures ResetInv(Apply(c, s, step))
  {
    if step.Resume? && !Effective(s.browser, step.request) { SameReset(s, Apply(c, s, step)); }
  }

  /** Over every run: a connection that overflowed tells its client with a reset, the last frame it yields, and
      no other connection does. */
  lemma {:induction false} ResetIsSent(c: Config, steps: seq<Step>)
    requires Run(c, steps).At?
    ensures ResetInv(Run(c, steps).state)
  {
    if steps != [] {
      var n := |steps| - 1;
      ResetIsSent(c, steps[..n]);
      RunKeeps(c, steps[..n]);
      StepReset(c, Run(c, steps[..n]).state, steps[n]);
    }
  }
}
