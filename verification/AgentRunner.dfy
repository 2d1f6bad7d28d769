/** The callback adapter with its worker task, and the agent loop that feeds it. What the model answers,
    what the tools do, which emits succeed and how far the worker gets while the loop waits are all inputs. */
module AgentRunner {
  import opened Agent
  import opened Wrappers

  datatype Item = Stop | Event(callback: Callback)

  datatype Worker = NotStarted | Running | Finished | Died

  datatype Closing = Closed | QueueFull | WorkerRaised

  const QUEUE_SIZE: nat := 256

  function Pending(queue: seq<Item>): seq<Callback> {
    if queue == [] then []
    else
      var n := |queue| - 1;
      Pending(queue[..n]) + (if queue[n].Event? then [queue[n].callback] else [])
  }

  lemma PendingAppend(queue: seq<Item>, item: Item)
    ensures Pending(queue + [item]) == Pending(queue) + (if item.Event? then [item.callback] else [])
  {
    assert (queue + [item])[..|queue|] == queue;
  }

  lemma {:induction false} PendingHead(queue: seq<Item>)
    requires queue != []
    ensures Pending(queue) == (if queue[0].Event? then [queue[0].callback] else []) + Pending(queue[1..])
  {
    var n := |queue| - 1;
    if n > 0 {
      PendingHead(queue[..n]);
      assert queue[..n][1..] == queue[1..][..n - 1];
    }
  }

  predicate OnlyLast(queue: seq<Item>) {
    forall i :: 0 <= i < |queue| - 1 ==> queue[i].Event?
  }

  class CallbackAdapter {
    const capacity: nat
    const accepts: nat -> bool   // does the sink accept the n-th emit?
    const pace: nat -> nat       // worker steps during the n-th wait of the loop
    var queue: seq<Item>
    var inHand: Option<Callback> // taken from the queue, its emit not yet done
    var worker: Worker
    var sink: seq<Callback>
    var emits: nat
    var waits: nat
    ghost var produced: seq<Callback>

    function Held(): seq<Callback> reads this { if inHand.Some? then [inHand.value] else [] }

    /** The sink accepts the first `n` emits. */
    ghost predicate AcceptsAll(n: nat) { forall k: nat :: k < n ==> accepts(k) }

    /** What was produced is delivered, held or queued, in this order, until an emit fails; even then what
        was delivered is a prefix of what was produced, up to the first emit that the sink does not accept. */
    ghost predicate Valid()
      reads this
    {
      && (!worker.Died? ==> produced == sink + Held() + Pending(queue))
      && sink <= produced
      && (worker.Died? ==> sink < produced)
      && emits == |sink| + (if worker.Died? then 1 else 0)
      && AcceptsAll(|sink|) && (worker.Died? ==> !accepts(|sink|))
      && (inHand.Some? ==> worker.Running?)
      && (capacity > 0 ==> |queue| <= capacity)
    }

    /** Started and not being closed. */
    ghost predicate Open()
      reads this
    {
      Valid() && !worker.Finished? && !worker.NotStarted? && Stop !in queue
    }

    constructor (accepts: nat -> bool, pace: nat -> nat, queueSize: nat := QUEUE_SIZE)
      ensures Valid() && worker.NotStarted? && queue == [] && sink == [] && produced == []
      ensures capacity == queueSize && this.accepts == accepts && this.pace == pace
    {
      capacity, this.accepts, this.pace := queueSize, accepts, pace;
      queue, inHand, worker, sink, emits, waits, produced := [], None, NotStarted, [], 0, 0, [];
    }

    predicate Full() reads this { capacity > 0 && |queue| >= capacity }

    method Start()
      requires Valid()
      modifies this`worker
      ensures Valid() && worker == if old(worker).NotStarted? then Running else old(worker)
    {
      if worker.NotStarted? { worker := Running; }
    }

    /** `_put`: raises when the queue is full. */
    method Put(item: Item) returns (ok: bool)
      requires Valid()
      modifies this`queue, this`produced
      ensures Valid() && ok == !old(Full())
      ensures ok ==> queue == old(queue) + [item]
      ensures ok ==> produced == old(produced) + (if item.Event? then [item.callback] else [])
      ensures !ok ==> queue == old(queue) && produced == old(produced) && Full()
    {
      ok := !Full();
      if ok {
        PendingAppend(queue, item);
        queue := queue + [item];
        if item.Event? { produced := produced + [item.callback]; }
      }
    }

    method OutputCallback(block: Block) returns (ok: bool)
      requires Valid()
      modifies this`queue, this`produced
      ensures Valid() && ok == (block.OtherBlock? || !old(Full())) && (!ok ==> Full())
      ensures produced == old(produced) +
        if !ok || block.OtherBlock? then []
        else if block.Text? then [MessageText(block.text)]
        else [Started(block.id, block.name, block.input)]
      ensures queue == old(queue) || exists c :: queue == old(queue) + [Event(c)]
    {
      ok := true;
      match block
      case Text(text, _) => ok := Put(Event(MessageText(text)));
      case ToolUse(id, name, input) => ok := Put(Event(Started(id, name, input)));
      case OtherBlock =>
    }

    /** Either both callbacks of a tool result are queued or the call raises; the result then may be
        queued without its screenshot. */
    method ToolOutputCallback(r: ToolResult, id: string) returns (ok: bool)
      requires Valid()
      modifies this`queue, this`produced
      ensures Valid()
      ensures ok ==> produced == old(produced) + ResultCalls(r, id)
      ensures !ok ==> old(produced) <= produced < old(produced) + ResultCalls(r, id) && Full()
      ensures Stop !in old(queue) ==> Stop !in queue
    {
      var output := Text0(Or(r.error, r.output));
      ok := Put(Event(Result(id, Truthy(r.error), if |output| <= OUTPUT_LIMIT then output else output[..OUTPUT_LIMIT])));
      if ok && Truthy(r.image) { ok := Put(Event(Screenshot(id))); }
    }

    /** One step of the worker: take an item, or finish the emit of the one in hand. */
    method WorkerStep()
      requires Valid() && worker.Running?
      modifies this`queue, this`inHand, this`worker, this`sink, this`emits
      ensures Valid() && produced == old(produced) && !worker.NotStarted?
      ensures old(inHand.Some?) ==>
        && inHand.None? && queue == old(queue) && emits == old(emits) + 1
        && worker == (if accepts(old(emits)) then Running else Died)
        && sink == old(sink) + if accepts(old(emits)) then [old(inHand.value)] else []
      ensures old(inHand.None? && queue != []) ==>
        && queue == old(queue[1..]) && sink == old(sink) && emits == old(emits)
        && worker == (if old(queue[0]).Stop? then Finished else Running)
        && inHand == if old(queue[0]).Stop? then None else Some(old(queue[0].callback))
      ensures old(inHand.None? && queue == []) ==>
        worker.Running? && queue == old(queue) && inHand == old(inHand) && sink == old(sink) && emits == old(emits)
    {
      if inHand.Some? {
        if accepts(emits) { sink := sink + [inHand.value]; } else { worker := Died; }
        inHand, emits := None, emits + 1;
      } else if queue != [] {
        PendingHead(queue);
        var item := queue[0];
        queue := queue[1..];
        if item.Stop? { worker := Finished; } else { inHand := Some(item.callback); }
      }
    }

    /** The loop waits; the worker gets as far as it gets. */
    method Wait()
      requires Valid() && !worker.Finished? && Stop !in queue
      modifies this`queue, this`inHand, this`worker, this`sink, this`emits, this`waits
      ensures Valid() && !worker.Finished? && Stop !in queue
      ensures produced == old(produced) && old(sink) <= sink
      ensures worker.NotStarted? == old(worker).NotStarted?
    {
      var steps := pace(waits);
      waits := waits + 1;
      while steps > 0 && worker.Running?
        invariant Valid() && !worker.Finished? && Stop !in queue
        invariant produced == old(produced) && old(sink) <= sink
        invariant worker.NotStarted? == old(worker).NotStarted?
      {
        WorkerStep();
        steps := steps - 1;
      }
    }

    /** `close`. It returns normally only if the sink accepted everything that was produced. If the queue
        is full it raises and the worker stays as it is. */
    method Close() returns (closing: Closing)
      requires Valid() && Stop !in queue && !worker.Finished?
      modifies this`queue, this`inHand, this`worker, this`sink, this`emits, this`produced
      ensures Valid() && produced == old(produced) && old(sink) <= sink
      ensures old(worker).NotStarted? ==> closing == Closed && sink == old(sink)
      ensures !old(worker).NotStarted? && closing == Closed ==> sink == produced && worker.NotStarted? && queue == []
      ensures (closing == QueueFull) == (!old(worker).NotStarted? && old(Full()))
      ensures closing == QueueFull ==> worker == old(worker) && queue == old(queue) && sink == old(sink)
      ensures closing == WorkerRaised ==> worker.Died?
      ensures (closing == WorkerRaised) == (!old(worker).NotStarted? && !old(Full()) && !AcceptsAll(|produced|))
      ensures closing == QueueFull ==> Full() && Stop !in queue && inHand == old(inHand)
    {
      if worker.NotStarted? { return Closed; }
      var ok := Put(Stop);
      if !ok { return QueueFull; }
      while worker.Running?
        invariant Valid() && produced == old(produced) && old(sink) <= sink && !worker.NotStarted?
        invariant OnlyLast(queue)
        invariant worker.Running? ==> queue != [] && queue[|queue| - 1] == Stop
        invariant worker.Finished? ==> queue == [] && inHand.None?
        decreases |queue|, inHand.Some?, worker.Running?
      {
        WorkerStep();
      }
      if worker.Died? { return WorkerRaised; }
      worker := NotStarted;
      return Closed;
    }
  }

  // ---------- prefixes of what a run produces ----------

  lemma ScanExtends(w: World, blocks: seq<Block>, n: nat, used: nat)
    requires n < |blocks|
    ensures ScanBlocks(w, blocks[..n + 1], used) ==
      (var scan := ScanBlocks(w, blocks[..n], used); if scan.raised then scan else ScanBlock(w, scan, blocks[n]))
  {
    assert blocks[..n + 1][..n] == blocks[..n];
  }

  lemma {:induction false} ScanGrows(w: World, blocks: seq<Block>, n: nat, used: nat)
    requires n <= |blocks|
    ensures ScanBlocks(w, blocks[..n], used).calls <= ScanBlocks(w, blocks, used).calls
    ensures ScanBlocks(w, blocks[..n], used).raised ==> ScanBlocks(w, blocks, used) == ScanBlocks(w, blocks[..n], used)
    decreases |blocks| - n
  {
    if n < |blocks| {
      ScanExtends(w, blocks, n, used);
      ScanGrows(w, blocks, n + 1, used);
    } else {
      assert blocks[..n] == blocks;
    }
  }

  lemma TextualExtends(w: World, textual: seq<Call>, n: nat, iteration: nat, used: nat)
    requires n < |textual|
    ensures RunTextual(w, textual[..n + 1], iteration, used) ==
      (var done := RunTextual(w, textual[..n], iteration, used);
       if done.raised then done else TextualCall(w, done, textual[n], TextToolId(iteration, n)))
  {
    assert textual[..n + 1][..n] == textual[..n];
  }

  lemma {:induction false} TextualGrows(w: World, textual: seq<Call>, n: nat, iteration: nat, used: nat)
    requires n <= |textual|
    ensures RunTextual(w, textual[..n], iteration, used).calls <= RunTextual(w, textual, iteration, used).calls
    ensures RunTextual(w, textual[..n], iteration, used).raised
      ==> RunTextual(w, textual, iteration, used) == RunTextual(w, textual[..n], iteration, used)
    decreases |textual| - n
  {
    if n < |textual| {
      var done := RunTextual(w, textual[..n], iteration, used);
      TextualExtends(w, textual, n, iteration, used);
      assert done.calls <= RunTextual(w, textual[..n + 1], iteration, used).calls;
      TextualGrows(w, textual, n + 1, iteration, used);
    } else {
      assert textual[..n] == textual;
    }
  }

  lemma {:induction false} CallsGrow(w: World, input: string, n: nat, limit: nat)
    requires n <= limit
    ensures After(w, input, n).calls <= After(w, input, limit).calls
    ensures !After(w, input, n).status.Going? ==> After(w, input, limit) == After(w, input, n)
    decreases limit - n
  {
    if n < limit {
      TurnGrows(w, After(w, input, n), n);
      CallsGrow(w, input, n + 1, limit);
    }
  }

  lemma AfterTurn(w: World, input: string, n: nat, limit: nat)
    requires n < limit && After(w, input, n).status.Going?
    ensures After(w, input, n + 1) == TurnOf(w, After(w, input, n), n)
    ensures TurnOf(w, After(w, input, n), n).calls <= After(w, input, limit).calls
  {
    CallsGrow(w, input, n + 1, limit);
  }

  ghost predicate Reached(w: World, input: string, n: nat, messages: seq<Turn>, calls: seq<Callback>, used: nat, status: Status) {
    After(w, input, n) == Progress(messages, calls, used, status)
  }

  lemma Ended(w: World, input: string, n: nat, limit: nat, messages: seq<Turn>, calls: seq<Callback>, used: nat, status: Status)
    requires n <= limit && Reached(w, input, n, messages, calls, used, status) && (status.Going? ==> n == limit)
    ensures Matches(Outcome(w, input, limit), messages, calls, if status.Going? then Failing(TooManyTurns) else status)
    ensures calls <= Outcome(w, input, limit).calls
  {
    CallsGrow(w, input, n, limit);
  }

  lemma TurnGrows(w: World, p: Progress, iteration: nat)
    ensures p.calls <= TurnOf(w, p, iteration).calls
    ensures w.api(iteration).Response? ==>
      p.calls + ScanBlocks(w, w.api(iteration).blocks, p.used).calls <= TurnOf(w, p, iteration).calls
  {
  }

  /** What the loop keeps of a response while it goes through it. */
  datatype Heard = Heard(results: seq<Content>, texts: seq<string>, textual: seq<Call>, used: nat, raised: bool)

  datatype Replies = Replies(content: seq<Content>, used: nat, raised: bool)

  datatype Next = Next(messages: seq<Turn>, used: nat, status: Status)

  ghost predicate Matches(p: Progress, messages: seq<Turn>, calls: seq<Callback>, status: Status) {
    p.messages == messages && p.calls == calls && p.status == status
  }

  /** The buffer is full and holds no stop marker: the worker, unless it has died, has not been told to stop. */
  predicate LeftAlone(adapter: CallbackAdapter)
    reads adapter
  {
    adapter.Full() && Stop !in adapter.queue && (adapter.worker.Running? || adapter.worker.Died?)
  }

  lemma SinkIsPaired(calls: seq<Callback>, sink: seq<Callback>)
    requires Paired(calls) && sink <= calls
    ensures Paired(sink)
  {
    assert sink == calls[..|sink|];
    PairedPrefix(calls, |sink|);
  }

  function Hear(scan: Scan): Heard {
    Heard(scan.results, scan.texts, scan.textual, scan.used, scan.raised)
  }

  class AnthropicAgentRunner {
    const maxIterations: nat

    constructor (maxIterations: nat := 30)
      ensures this.maxIterations == maxIterations
    {
      this.maxIterations := maxIterations;
    }

    /** One tool call: announce it, wait for the tool, report its result. */
    static method CallTool(adapter: CallbackAdapter, w: World, id: string, name: string, input: string, used: nat)
      returns (outcome: Option<ToolOutcome>)
      requires adapter.Open()
      modifies adapter
      ensures adapter.Open()
      ensures outcome.Some? ==> outcome.value == w.tools(used)
      ensures outcome.None? ==> adapter.Full()
      ensures var all := [Started(id, name, input)]
          + (if w.tools(used).Returned? then ResultCalls(w.tools(used).result, id) else []);
        old(adapter.produced) <= adapter.produced <= old(adapter.produced) + all
        && (outcome.Some? ==> adapter.produced == old(adapter.produced) + all)
    {
      hide CallbackAdapter.Valid, ResultCalls;
      var ok := adapter.OutputCallback(ToolUse(id, name, input));
      if !ok { return None; }
      adapter.Wait();
      match w.tools(used)
      case Raised => return Some(Raised);
      case Returned(r) =>
        ghost var announced := adapter.produced;
        assert announced == old(adapter.produced) + [Started(id, name, input)];
        ok := adapter.ToolOutputCallback(r, id);
        assert old(adapter.produced) + ([Started(id, name, input)] + ResultCalls(r, id)) == announced + ResultCalls(r, id);
        return if ok then Some(Returned(r)) else None;
    }

    /** One block of a response, after blocks that scan to `scan` and produced its callbacks from `base`. */
    static method RunBlock(adapter: CallbackAdapter, w: World, heard: Heard, block: Block,
                           ghost base: seq<Callback>, ghost scan: Scan)
      returns (done: Option<Heard>)
      requires adapter.Open() && adapter.produced == base + scan.calls && heard == Hear(scan) && !scan.raised
      modifies adapter
      ensures adapter.Open()
      ensures base + scan.calls <= adapter.produced <= base + ScanBlock(w, scan, block).calls
      ensures done.Some? ==> adapter.produced == base + ScanBlock(w, scan, block).calls
      ensures done.Some? ==> done.value == Hear(ScanBlock(w, scan, block))
      ensures done.None? ==> adapter.Full()
    {
      hide CallbackAdapter.Valid, ResultCalls, ToolResultBlock;
      match block
      case OtherBlock => return Some(heard);
      case Text(text, parsed) =>
        if text == "" { return Some(heard); }
        if parsed != [] { return Some(heard.(textual := heard.textual + parsed)); }
        var ok := adapter.OutputCallback(block);
        assert base + (scan.calls + [MessageText(text)]) == (base + scan.calls) + [MessageText(text)];
        if !ok { return None; }
        return Some(heard.(texts := heard.texts + [text]));
      case ToolUse(id, name, input) =>
        var outcome := CallTool(adapter, w, id, name, input, heard.used);
        ghost var all := [Started(id, name, input)]
          + (if w.tools(scan.used).Returned? then ResultCalls(w.tools(scan.used).result, id) else []);
        assert ScanBlock(w, scan, block).calls == scan.calls + all;
        assert base + (scan.calls + all) == (base + scan.calls) + all;
        if outcome.None? { return None; }
        var called := heard.(used := heard.used + 1);
        if outcome.value.Raised? { return Some(called.(raised := true)); }
        return Some(called.(results := called.results + [ToolResultBlock(outcome.value.result, id)]));
    }

    /** The blocks of one response in order; `None` when a callback found the buffer full. */
    static method RunBlocks(adapter: CallbackAdapter, w: World, blocks: seq<Block>, used: nat)
      returns (done: Option<Heard>)
      requires adapter.Open()
      modifies adapter
      ensures adapter.Open()
      ensures old(adapter.produced) <= adapter.produced <= old(adapter.produced) + ScanBlocks(w, blocks, used).calls
      ensures done.Some? ==> adapter.produced == old(adapter.produced) + ScanBlocks(w, blocks, used).calls
      ensures done.Some? ==> done.value == Hear(ScanBlocks(w, blocks, used))
      ensures done.None? ==> adapter.Full()
    {
      ghost var base := adapter.produced;
      ghost var scan := Scan([], [], [], [], used, false);
      var heard := Heard([], [], [], used, false);
      assert base + [] == base;
      for i := 0 to |blocks|
        invariant adapter.Open()
        invariant scan == ScanBlocks(w, blocks[..i], used) && heard == Hear(scan) && !scan.raised
        invariant adapter.produced == base + scan.calls
      {
        ScanExtends(w, blocks, i, used);
        ScanGrows(w, blocks, i + 1, used);
        var step := RunBlock(adapter, w, heard, blocks[i], base, scan);
        if step.None? { return None; }
        heard, scan := step.value, ScanBlock(w, scan, blocks[i]);
        if heard.raised { return Some(heard); }
      }
      assert blocks[..|blocks|] == blocks;
      return Some(heard);
    }

    static method RunTextualCall(adapter: CallbackAdapter, w: World, replies: Replies, call: Call, id: string,
                                 ghost base: seq<Callback>, ghost before: Fallback)
      returns (done: Option<Replies>)
      requires adapter.Open() && adapter.produced == base + before.calls
      requires !before.raised && replies == Replies(before.content, before.used, false)
      modifies adapter
      ensures adapter.Open()
      ensures var after := TextualCall(w, before, call, id);
        && base + before.calls <= adapter.produced <= base + after.calls
        && (done.Some? ==> adapter.produced == base + after.calls)
        && (done.Some? ==> done.value == Replies(after.content, after.used, after.raised))
      ensures done.None? ==> adapter.Full()
    {
      hide CallbackAdapter.Valid, ResultCalls, FallbackContent;
      var outcome := CallTool(adapter, w, id, call.name, call.input, replies.used);
      ghost var all := [Started(id, call.name, call.input)]
        + (if w.tools(before.used).Returned? then ResultCalls(w.tools(before.used).result, id) else []);
      assert TextualCall(w, before, call, id).calls == before.calls + all;
      assert base + (before.calls + all) == (base + before.calls) + all;
      if outcome.None? { return None; }
      var called := replies.(used := replies.used + 1);
      if outcome.value.Raised? { return Some(called.(raised := true)); }
      return Some(called.(content := called.content + FallbackContent(call.name, outcome.value.result)));
    }

    /** The textual calls of a response in order, each run and its result collected. */
    static method RunFallback(adapter: CallbackAdapter, w: World, textual: seq<Call>, iteration: nat, used: nat)
      returns (done: Option<Replies>)
      requires adapter.Open()
      modifies adapter
      ensures adapter.Open()
      ensures var all := RunTextual(w, textual, iteration, used);
        && old(adapter.produced) <= adapter.produced <= old(adapter.produced) + all.calls
        && (done.Some? ==> adapter.produced == old(adapter.produced) + all.calls)
        && (done.Some? ==> done.value == Replies(all.content, all.used, all.raised))
      ensures done.None? ==> adapter.Full()
    {
      ghost var base := adapter.produced;
      ghost var fallback := Fallback([], [TextPart(INTRO)], used, false);
      var replies := Replies([TextPart(INTRO)], used, false);
      assert base + [] == base;
      for i := 0 to |textual|
        invariant adapter.Open() && adapter.produced == base + fallback.calls
        invariant fallback == RunTextual(w, textual[..i], iteration, used) && !fallback.raised
        invariant replies == Replies(fallback.content, fallback.used, false)
      {
        TextualExtends(w, textual, i, iteration, used);
        TextualGrows(w, textual, i + 1, iteration, used);
        var step := RunTextualCall(adapter, w, replies, textual[i], TextToolId(iteration, i), base, fallback);
        if step.None? { return None; }
        replies, fallback := step.value, TextualCall(w, fallback, textual[i], TextToolId(iteration, i));
        if replies.raised { return Some(replies); }
      }
      assert textual[..|textual|] == textual;
      return Some(replies);
    }

    /** One iteration of the loop; `None` when a callback found the buffer full. */
    static method Turn(adapter: CallbackAdapter, w: World, messages: seq<Turn>, iteration: nat, used: nat)
      returns (done: Option<Next>)
      requires adapter.Open()
      modifies adapter
      ensures adapter.Open()
      ensures adapter.produced <= TurnOf(w, Progress(messages, old(adapter.produced), used, Going), iteration).calls
      ensures done.Some? ==>
        Progress(done.value.messages, adapter.produced, done.value.used, done.value.status)
        == TurnOf(w, Progress(messages, old(adapter.produced), used, Going), iteration)
      ensures done.Some? ==> done.value.status != Failing(SinkFailed) && done.value.status != Failing(BufferFull)
      ensures done.None? ==> adapter.Full()
    {
      adapter.Wait();
      if w.api(iteration).ApiError? { return Some(Next(messages, used, Failing(ApiFailure))); }
      var blocks := w.api(iteration).blocks;
      ghost var scan := ScanBlocks(w, blocks, used);
      TurnGrows(w, Progress(messages, adapter.produced, used, Going), iteration);
      var all := messages + [FromAssistant(blocks)];
      var heard := RunBlocks(adapter, w, blocks, used);
      if heard.None? { return None; }
      var h := heard.value;
      if h.raised { return Some(Next(all, h.used, Failing(ToolFailure))); }
      if h.textual != [] {
        var replies := RunFallback(adapter, w, h.textual, iteration, h.used);
        if replies.None? { return None; }
        var r := replies.value;
        return Some(if r.raised then Next(all, r.used, Failing(ToolFailure)) else Next(all + [FromUser(r.content)], r.used, Going));
      }
      return Some(if h.results == [] then Next(all, h.used, Answered(h.texts)) else Next(all + [FromUser(h.results)], h.used, Going));
    }

    /** One iteration, after `n` iterations of a run with at most `limit`. */
    static method NextTurn(adapter: CallbackAdapter, w: World, ghost input: string, messages: seq<Turn>, n: nat, used: nat,
                           ghost limit: nat)
      returns (done: Option<Next>)
      requires adapter.Open() && n < limit
      requires Reached(w, input, n, messages, adapter.produced, used, Going)
      modifies adapter
      ensures adapter.Open() && adapter.produced <= Outcome(w, input, limit).calls
      ensures done.Some? ==>
        Reached(w, input, n + 1, done.value.messages, adapter.produced, done.value.used, done.value.status)
      ensures done.Some? ==> done.value.status != Failing(SinkFailed) && done.value.status != Failing(BufferFull)
      ensures done.None? ==> adapter.Full()
    {
      AfterTurn(w, input, n, limit);
      done := Turn(adapter, w, messages, n, used);
    }

    /** The loop of a run, up to where `close` is called. */
    method Iterate(adapter: CallbackAdapter, w: World, input: string) returns (status: Status, messages: seq<Turn>)
      requires adapter.Open() && adapter.produced == []
      modifies adapter
      ensures adapter.Open() && !status.Going? && status != Failing(SinkFailed)
      ensures status != Failing(BufferFull) ==>
        Matches(Outcome(w, input, maxIterations), messages, adapter.produced, status)
      ensures adapter.produced <= Outcome(w, input, maxIterations).calls
      ensures status == Failing(BufferFull) ==> adapter.Full()
    {
      messages, status := [FromUser([TextPart(input)])], Going;
      var used, i := 0, 0;
      while i < maxIterations && status.Going?
        invariant adapter.Open() && i <= maxIterations && status != Failing(SinkFailed) && status != Failing(BufferFull)
        invariant Reached(w, input, i, messages, adapter.produced, used, status)
        decreases maxIterations - i
      {
        var next := NextTurn(adapter, w, input, messages, i, used, maxIterations);
        if next.None? { return Failing(BufferFull), messages; }
        messages, used, status, i := next.value.messages, next.value.used, next.value.status, i + 1;
      }
      Ended(w, input, i, maxIterations, messages, adapter.produced, used, status);
      if status.Going? { status := Failing(TooManyTurns); }
    }

    /** The run. Whatever the model, the tools, the sink and the scheduling do, the sink receives, in order,
        a prefix of the callbacks of the run without buffer overflow, and unless the buffer or the sink
        failed it received all of them before the run ends. The run ends with the buffer full exactly if it is
        full when `close` puts its stop marker, as it always is after a callback overflow: `close` then raises
        too, the worker has been told nothing, and whatever it has not died of it goes on delivering. */
    method Run(w: World, input: string, runtime: Option<string>, accepts: nat -> bool, pace: nat -> nat)
      returns (status: Status, messages: seq<Turn>, adapter: CallbackAdapter)
      ensures fresh(adapter) && adapter.Valid()
      ensures !Truthy(runtime) ==> status == Failing(NoRuntime) && adapter.produced == []
      ensures adapter.sink <= adapter.produced <= Outcome(w, input, maxIterations).calls && Paired(adapter.sink)
      ensures Truthy(runtime) && status != Failing(BufferFull) && status != Failing(SinkFailed) ==>
        Matches(Outcome(w, input, maxIterations), messages, adapter.sink, status) && adapter.worker.NotStarted?
      ensures Truthy(runtime) && status == Failing(SinkFailed) ==>
        adapter.worker.Died? && adapter.sink < Outcome(w, input, maxIterations).calls
      ensures adapter.accepts == accepts
      ensures Truthy(runtime) && status != Failing(BufferFull) ==>
        (status == Failing(SinkFailed) <==> !adapter.AcceptsAll(|Outcome(w, input, maxIterations).calls|))
      ensures Truthy(runtime) && adapter.produced != Outcome(w, input, maxIterations).calls ==> status == Failing(BufferFull)
      ensures status == Failing(BufferFull) ==> LeftAlone(adapter)
    {
      adapter := new CallbackAdapter(accepts, pace);
      if !Truthy(runtime) { return Failing(NoRuntime), [], adapter; }
      adapter.Start();
      status, messages := Iterate(adapter, w, input);
      ghost var calls := Outcome(w, input, maxIterations).calls;
      var closing := adapter.Close();
      CallbacksArePaired(w, input, maxIterations);
      SinkIsPaired(calls, adapter.sink);
      if closing == QueueFull { status := Failing(BufferFull); }
      if closing == WorkerRaised { status := Failing(SinkFailed); }
    }

    /** What a worker left alone does after the run has ended, when its sink comes back: it delivers everything
        that was produced, and waits for more, unless an emit fails. */
    static method WorkOff(adapter: CallbackAdapter)
      requires LeftAlone(adapter) && adapter.Valid() && adapter.worker.Running?
      modifies adapter
      ensures adapter.Valid() && adapter.produced == old(adapter.produced) && old(adapter.sink) <= adapter.sink
      ensures adapter.worker.Running? || adapter.worker.Died?
      ensures adapter.worker.Running? ==> adapter.sink == adapter.produced && adapter.queue == []
      ensures adapter.worker.Running? ==> old(adapter.sink) < adapter.sink
      ensures adapter.worker.Running? <==> adapter.AcceptsAll(|adapter.produced|)
    {
      assert adapter.queue[0] in adapter.queue;
      ghost var sunk := adapter.sink;
      PendingHead(adapter.queue);
      while adapter.worker.Running? && (adapter.inHand.Some? || adapter.queue != [])
        invariant adapter.Valid() && Stop !in adapter.queue && (adapter.worker.Running? || adapter.worker.Died?)
        invariant adapter.produced == old(adapter.produced) && sunk <= adapter.sink
        decreases |adapter.queue|, adapter.inHand.Some?, adapter.worker.Running?
      {
        adapter.WorkerStep();
      }
    }
  }
}
