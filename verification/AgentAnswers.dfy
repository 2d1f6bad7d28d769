/** What the agent says, asks for and is told, read off the responses alone: which callbacks a response gives, what the
    model is answered, and how a run ends. */
module AgentAnswers {
  import opened Agent
  import opened Wrappers
  import Json

  // ---------- projections of a response ----------

  function SpokenBy(block: Block): seq<string> {
    if block.Text? && block.text != "" && block.calls == [] then [block.text] else []
  }

  function ProposedBy(block: Block): seq<Call> {
    if block.Text? && block.text != "" then block.calls else []
  }

  function AnnouncedBy(block: Block): seq<Callback> {
    if block.ToolUse? then [Started(block.id, block.name, block.input)] else []
  }

  /** The texts of a response that propose no calls. */
  function Spoken(blocks: seq<Block>): seq<string> {
    if blocks == [] then [] else Spoken(blocks[..|blocks| - 1]) + SpokenBy(blocks[|blocks| - 1])
  }

  /** The calls that texts of a response propose. */
  function Proposed(blocks: seq<Block>): seq<Call> {
    if blocks == [] then [] else Proposed(blocks[..|blocks| - 1]) + ProposedBy(blocks[|blocks| - 1])
  }

  /** The announcements of the tool calls of a response. */
  function Announced(blocks: seq<Block>): seq<Callback> {
    if blocks == [] then [] else Announced(blocks[..|blocks| - 1]) + AnnouncedBy(blocks[|blocks| - 1])
  }

  /** The announcements of proposed calls, under ids made for them. */
  function AnnouncedAs(calls: seq<Call>, iteration: nat): seq<Callback> {
    if calls == [] then []
    else
      var n := |calls| - 1;
      AnnouncedAs(calls[..n], iteration) + [Started(TextToolId(iteration, n), calls[n].name, calls[n].input)]
  }

  function TextsOf(cs: seq<Callback>): seq<string> {
    if cs == [] then []
    else
      var n := |cs| - 1;
      TextsOf(cs[..n]) + (if cs[n].MessageText? then [cs[n].text] else [])
  }

  function StartsOf(cs: seq<Callback>): seq<Callback> {
    if cs == [] then []
    else
      var n := |cs| - 1;
      StartsOf(cs[..n]) + (if cs[n].Started? then [cs[n]] else [])
  }

  lemma {:induction false} SaysAppend(a: seq<Callback>, b: seq<Callback>)
    ensures TextsOf(a + b) == TextsOf(a) + TextsOf(b) && StartsOf(a + b) == StartsOf(a) + StartsOf(b)
  {
    if b == [] {
      assert a + b == a;
    } else {
      var n := |b| - 1;
      SaysAppend(a, b[..n]);
      assert (a + b)[..|a + b| - 1] == a + b[..n] && (a + b)[|a + b| - 1] == b[n];
    }
  }

  lemma OneSays(c: Callback)
    ensures TextsOf([c]) == if c.MessageText? then [c.text] else []
    ensures StartsOf([c]) == if c.Started? then [c] else []
  {
    assert [c][..0] == [] && TextsOf([]) == [] && StartsOf([]) == [];
  }

  lemma ResultSaysNothing(r: ToolResult, id: string)
    ensures TextsOf(ResultCalls(r, id)) == [] && StartsOf(ResultCalls(r, id)) == []
  {
    var cs := ResultCalls(r, id);
    OneSays(cs[0]);
    if |cs| == 2 {
      OneSays(cs[1]);
      SaysAppend([cs[0]], [cs[1]]);
      assert cs == [cs[0]] + [cs[1]];
    } else {
      assert cs == [cs[0]];
    }
  }

  function AfterCall(w: World, n: nat, id: string): seq<Callback> {
    if w.tools(n).Returned? then ResultCalls(w.tools(n).result, id) else []
  }

  /** The callbacks of one call whose tool returned or raised. */
  lemma CallSays(before: seq<Callback>, start: Callback, w: World, n: nat)
    requires start.Started?
    ensures TextsOf(before + [start] + AfterCall(w, n, start.id)) == TextsOf(before)
    ensures StartsOf(before + [start] + AfterCall(w, n, start.id)) == StartsOf(before) + [start]
  {
    OneSays(start);
    SaysAppend(before, [start]);
    SaysAppend(before + [start], AfterCall(w, n, start.id));
    if w.tools(n).Returned? { ResultSaysNothing(w.tools(n).result, start.id); }
    assert TextsOf(before) + [] + [] == TextsOf(before) && StartsOf(before) + [start] + [] == StartsOf(before) + [start];
  }

  // ---------- one response ----------

  lemma ToolSays(w: World, scan: Scan, block: Block)
    requires block.ToolUse?
    ensures var next := ScanBlock(w, scan, block);
      && TextsOf(next.calls) == TextsOf(scan.calls) && StartsOf(next.calls) == StartsOf(scan.calls) + AnnouncedBy(block)
      && next.texts == scan.texts && next.textual == scan.textual
  {
    hide TextsOf, StartsOf, ResultCalls, ToolResultBlock;
    var start := Started(block.id, block.name, block.input);
    CallSays(scan.calls, start, w, scan.used);
    assert scan.calls + [start] + [] == scan.calls + [start];
  }

  lemma WordsSay(w: World, scan: Scan, block: Block)
    requires block.Text?
    ensures var next := ScanBlock(w, scan, block);
      && TextsOf(next.calls) == TextsOf(scan.calls) + SpokenBy(block) && StartsOf(next.calls) == StartsOf(scan.calls)
      && next.texts == scan.texts + SpokenBy(block) && next.textual == scan.textual + ProposedBy(block)
  {
    hide TextsOf, StartsOf;
    OneSays(MessageText(block.text));
    SaysAppend(scan.calls, [MessageText(block.text)]);
    assert TextsOf(scan.calls) + [] == TextsOf(scan.calls) && StartsOf(scan.calls) + [] == StartsOf(scan.calls);
  }

  lemma BlockSays(w: World, scan: Scan, block: Block)
    ensures var next := ScanBlock(w, scan, block);
      && next.texts == scan.texts + SpokenBy(block) && TextsOf(next.calls) == TextsOf(scan.calls) + SpokenBy(block)
      && StartsOf(next.calls) == StartsOf(scan.calls) + AnnouncedBy(block)
      && next.textual == scan.textual + ProposedBy(block)
  {
    hide TextsOf, StartsOf;
    if block.Text? { WordsSay(w, scan, block); }
    if block.ToolUse? { ToolSays(w, scan, block); }
    assert TextsOf(scan.calls) + [] == TextsOf(scan.calls) && StartsOf(scan.calls) + [] == StartsOf(scan.calls);
    assert scan.texts + [] == scan.texts && scan.textual + [] == scan.textual;
  }

  /** The callbacks of a response: its texts without calls and its tool calls with their names and inputs, in order; all of
      them unless a tool raised. The texts kept for the answer are the texts called back. */
  lemma {:induction false} ScanSays(w: World, blocks: seq<Block>, used: nat)
    ensures var scan := ScanBlocks(w, blocks, used);
      && scan.texts == TextsOf(scan.calls) <= Spoken(blocks) && StartsOf(scan.calls) <= Announced(blocks)
      && (!scan.raised ==>
            scan.texts == Spoken(blocks) && StartsOf(scan.calls) == Announced(blocks) && scan.textual == Proposed(blocks))
  {
    if blocks != [] {
      var n := |blocks| - 1;
      ScanSays(w, blocks[..n], used);
      var scan := ScanBlocks(w, blocks[..n], used);
      if !scan.raised { BlockSays(w, scan, blocks[n]); }
    }
  }

  /** One of `count` tool runs from number `from` on raised. */
  ghost predicate SomeRaised(w: World, from: nat, count: nat) {
    exists n: nat :: from <= n < from + count && w.tools(n).Raised?
  }

  lemma OneMoreRaised(w: World, from: nat, count: nat)
    ensures SomeRaised(w, from, count + 1) <==> SomeRaised(w, from, count) || w.tools(from + count).Raised?
  {
  }

  /** A response's scan ends early exactly if one of its tools raised. */
  lemma {:induction false} ScanRaisesIff(w: World, blocks: seq<Block>, used: nat)
    ensures var scan := ScanBlocks(w, blocks, used);
      && (scan.raised <==> SomeRaised(w, used, |UseIds(blocks)|))
      && (!scan.raised ==> scan.used == used + |UseIds(blocks)|)
  {
    if blocks != [] {
      var n := |blocks| - 1;
      ScanRaisesIff(w, blocks[..n], used);
      ResultsInOrder(w, blocks, used);
      if blocks[n].ToolUse? { OneMoreRaised(w, used, |UseIds(blocks[..n])|); }
    }
  }

  lemma ProposalSays(w: World, done: Fallback, call: Call, id: string)
    ensures var next, start := TextualCall(w, done, call, id), Started(id, call.name, call.input);
      && TextsOf(next.calls) == TextsOf(done.calls) && StartsOf(next.calls) == StartsOf(done.calls) + [start]
      && next.used == done.used + 1 && (next.raised <==> done.raised || w.tools(done.used).Raised?)
  {
    var start := Started(id, call.name, call.input);
    CallSays(done.calls, start, w, done.used);
    assert done.calls + [start] + [] == done.calls + [start];
  }

  /** The proposed calls of a response: announced with their names and inputs under ids of their own, in order, all
      of them unless a tool raised. */
  lemma {:induction false} TextualSays(w: World, calls: seq<Call>, iteration: nat, used: nat)
    ensures var done := RunTextual(w, calls, iteration, used);
      && TextsOf(done.calls) == [] && StartsOf(done.calls) <= AnnouncedAs(calls, iteration)
      && (!done.raised ==> StartsOf(done.calls) == AnnouncedAs(calls, iteration) && done.used == used + |calls|)
      && (done.raised <==> SomeRaised(w, used, |calls|))
  {
    hide TextualCall;
    if calls != [] {
      var n := |calls| - 1;
      TextualSays(w, calls[..n], iteration, used);
      var done := RunTextual(w, calls[..n], iteration, used);
      OneMoreRaised(w, used, n);
      if !done.raised { ProposalSays(w, done, calls[n], TextToolId(iteration, n)); }
    }
  }

  /** The ids made for proposed calls are distinct over a whole run. */
  lemma TextIdsDiffer(i: nat, k: nat, i': nat, k': nat)
    ensures TextToolId(i, k) == TextToolId(i', k') ==> i == i' && k == k'
  {
    if TextToolId(i, k) == TextToolId(i', k') {
      IdParts(i, k);
      IdParts(i', k');
      SameTail("text-tool-", Json.Decimal(i + 1) + "-" + Json.Decimal(k + 1), Json.Decimal(i' + 1) + "-" + Json.Decimal(k' + 1));
      DashSplits(Json.Decimal(i + 1), Json.Decimal(k + 1), Json.Decimal(i' + 1), Json.Decimal(k' + 1));
      Json.DecimalRoundTrip(i + 1);
      Json.DecimalRoundTrip(i' + 1);
      Json.DecimalRoundTrip(k + 1);
      Json.DecimalRoundTrip(k' + 1);
    }
  }

  lemma IdParts(i: nat, k: nat)
    ensures TextToolId(i, k) == "text-tool-" + (Json.Decimal(i + 1) + "-" + Json.Decimal(k + 1))
  {
    var a, b := Json.Decimal(i + 1), Json.Decimal(k + 1);
    assert "text-tool-" + a + "-" + b == "text-tool-" + (a + "-" + b);
  }

  lemma SameTail(head: string, a: string, b: string)
    requires head + a == head + b
    ensures a == b
  {
    assert (head + a)[|head|..] == a && (head + b)[|head|..] == b;
  }

  lemma DashSplits(a: string, b: string, a': string, b': string)
    requires Json.Digits(a) && Json.Digits(a') && a + "-" + b == a' + "-" + b'
    ensures a == a' && b == b'
  {
    var s, s' := a + "-" + b, a' + "-" + b';
    assert s[|a|] == '-' && s'[|a'|] == '-';
    assert forall i :: 0 <= i < |a| ==> s[i] == a[i] != '-';
    assert forall i :: 0 <= i < |a'| ==> s'[i] == a'[i] != '-';
    assert |a| == |a'|;
    assert s[..|a|] == a && s'[..|a|] == a';
    assert s[|a| + 1..] == b && s'[|a| + 1..] == b';
  }

  // ---------- what the model is told ----------

  /** The words of a result: its error, otherwise its output. */
  function Words(r: ToolResult): string {
    if r.error.Some? && r.error.value != "" then r.error.value
    else if r.output.Some? then r.output.value else ""
  }

  predicate Fails(r: ToolResult) {
    r.error.Some? && r.error.value != ""
  }

  predicate Pictured(r: ToolResult) {
    r.image.Some? && r.image.value != ""
  }

  /** What the user is shown of a result: the flag, the first 10000 characters, and a screenshot exactly if there is an image. */
  lemma ResultShown(r: ToolResult, id: string)
    ensures var shown := if |Words(r)| <= 10000 then Words(r) else Words(r)[..10000];
      ResultCalls(r, id) == [Result(id, Fails(r), shown)] + (if Pictured(r) then [Screenshot(id)] else [])
  {
  }

  /** What the model is told of a tool call: under the same flag the words whole, behind the system note if there is
      one, and the image. */
  lemma ResultTold(r: ToolResult, id: string)
    ensures var note := if r.system.Some? && r.system.value != "" then "<system>" + r.system.value + "</system>\n" else "";
      var block := ToolResultBlock(r, id);
      && block.ResultPart? && block.id == id && block.isError == Fails(r)
      && block.parts == (if note + Words(r) == "" then [] else [TextPart(note + Words(r))])
                        + (if Pictured(r) then [ImagePart(r.image.value)] else [])
  {
    assert "" + Words(r) == Words(r);
  }

  /** What the model is told of a proposed call: its name, whether it failed, the words or that there are none, and the image. */
  lemma ProposalTold(name: string, r: ToolResult)
    ensures FallbackContent(name, r) ==
      [TextPart("Actual sandbox result for " + name + (if Fails(r) then " (error):\n" else " (success):\n")
                + (if Words(r) == "" then "(no textual output)" else Words(r)))]
      + (if Pictured(r) then [ImagePart(r.image.value)] else [])
  {
    var text := if Words(r) == "" then "(no textual output)" else Words(r);
    Worded("Actual sandbox result for " + name, if Fails(r) then "error" else "success", text);
  }

  lemma Worded(head: string, status: string, text: string)
    ensures head + " (" + status + "):\n" + text == head + (" (" + status + "):\n") + text
    ensures status == "error" ==> " (" + status + "):\n" == " (error):\n"
    ensures status == "success" ==> " (" + status + "):\n" == " (success):\n"
  {
  }

  /** The results of the tool calls of a response whose tools returned. */
  function Results(w: World, ids: seq<string>, used: nat): seq<Content> {
    if ids == [] then []
    else
      var n := |ids| - 1;
      Results(w, ids[..n], used) +
      (if w.tools(used + n).Returned? then [ToolResultBlock(w.tools(used + n).result, ids[n])] else [])
  }

  /** The results of proposed calls, in order. */
  function Told(w: World, calls: seq<Call>, used: nat): seq<Content> {
    if calls == [] then []
    else
      var n := |calls| - 1;
      Told(w, calls[..n], used) +
      (if w.tools(used + n).Returned? then FallbackContent(calls[n].name, w.tools(used + n).result) else [])
  }

  lemma ResultsExtend(w: World, ids: seq<string>, id: string, used: nat)
    ensures Results(w, ids + [id], used) == Results(w, ids, used) +
      (if w.tools(used + |ids|).Returned? then [ToolResultBlock(w.tools(used + |ids|).result, id)] else [])
  {
    assert (ids + [id])[..|ids|] == ids;
  }

  lemma {:induction false} ScanTold(w: World, blocks: seq<Block>, used: nat)
    ensures var scan := ScanBlocks(w, blocks, used); !scan.raised ==> scan.results == Results(w, UseIds(blocks), used)
  {
    if blocks != [] {
      var n := |blocks| - 1;
      ScanTold(w, blocks[..n], used);
      ScanRaisesIff(w, blocks[..n], used);
      var ids := UseIds(blocks[..n]);
      if blocks[n].ToolUse? { ResultsExtend(w, ids, blocks[n].id, used); } else { assert ids + [] == ids; }
    }
  }

  lemma ProposalTells(w: World, done: Fallback, call: Call, id: string)
    ensures var next := TextualCall(w, done, call, id);
      next.content == done.content +
        (if w.tools(done.used).Returned? then FallbackContent(call.name, w.tools(done.used).result) else [])
  {
    assert done.content + [] == done.content;
  }

  lemma TextualStep(w: World, calls: seq<Call>, iteration: nat, used: nat)
    requires calls != []
    ensures var n := |calls| - 1;
      RunTextual(w, calls, iteration, used) ==
        (var done := RunTextual(w, calls[..n], iteration, used);
         if done.raised then done else TextualCall(w, done, calls[n], TextToolId(iteration, n)))
  {
    hide TextualCall;
  }

  lemma NothingTold(w: World, iteration: nat, used: nat)
    ensures RunTextual(w, [], iteration, used).content == [TextPart(INTRO)] + Told(w, [], used)
  {
  }

  lemma {:induction false} TextualTold(w: World, calls: seq<Call>, iteration: nat, used: nat)
    ensures var done := RunTextual(w, calls, iteration, used);
      !done.raised ==> done.content == [TextPart(INTRO)] + Told(w, calls, used)
  {
    hide *;
    if calls == [] {
      NothingTold(w, iteration, used);
    } else {
      var n := |calls| - 1;
      var done := RunTextual(w, calls[..n], iteration, used);
      TextualStep(w, calls, iteration, used);
      TextualTold(w, calls[..n], iteration, used);
      TextualSays(w, calls[..n], iteration, used);
      ProposalTells(w, done, calls[n], TextToolId(iteration, n));
      if !done.raised { ToldMore(w, calls, used, done.content); }
    }
  }

  lemma ToldMore(w: World, calls: seq<Call>, used: nat, before: seq<Content>)
    requires calls != []
    requires var n := |calls| - 1; before == [TextPart(INTRO)] + Told(w, calls[..n], used)
    ensures var n := |calls| - 1;
      before + (if w.tools(used + n).Returned? then FallbackContent(calls[n].name, w.tools(used + n).result) else [])
      == [TextPart(INTRO)] + Told(w, calls, used)
  {
    hide FallbackContent;
  }

  // ---------- one turn ----------

  /** The number of calls of a response. */
  function Calls(blocks: seq<Block>): nat {
    |UseIds(blocks)| + |Proposed(blocks)|
  }

  /** The turn that answers a response: the real results of the proposed calls if there are any, otherwise those of the tool calls. */
  function ReplyTo(w: World, blocks: seq<Block>, used: nat): seq<Content> {
    if Proposed(blocks) != [] then [TextPart(INTRO)] + Told(w, Proposed(blocks), used + |UseIds(blocks)|)
    else Results(w, UseIds(blocks), used)
  }

  lemma SplitRaised(w: World, from: nat, a: nat, b: nat)
    ensures SomeRaised(w, from, a + b) <==> SomeRaised(w, from, a) || SomeRaised(w, from + a, b)
  {
  }

  /** A response without calls is the answer, its texts the words of it. */
  lemma TurnAnswered(w: World, p: Progress, iteration: nat, blocks: seq<Block>)
    requires p.status.Going? && w.api(iteration) == Response(blocks) && Calls(blocks) == 0
    ensures var q := TurnOf(w, p, iteration);
      q.messages == p.messages + [FromAssistant(blocks)] && q.status == Answered(Spoken(blocks)) && q.used == p.used
  {
    ScanSays(w, blocks, p.used);
    ScanRaisesIff(w, blocks, p.used);
    ScanResults(w, blocks, p.used);
  }

  /** A response one of whose tools raised ends the run. */
  lemma TurnRaised(w: World, p: Progress, iteration: nat, blocks: seq<Block>)
    requires p.status.Going? && w.api(iteration) == Response(blocks) && SomeRaised(w, p.used, Calls(blocks))
    ensures var q := TurnOf(w, p, iteration);
      q.messages == p.messages + [FromAssistant(blocks)] && q.status == Failing(ToolFailure)
  {
    var scan := ScanBlocks(w, blocks, p.used);
    ScanSays(w, blocks, p.used);
    ScanRaisesIff(w, blocks, p.used);
    SplitRaised(w, p.used, |UseIds(blocks)|, |Proposed(blocks)|);
    if !scan.raised {
      TextualSays(w, scan.textual, iteration, scan.used);
      assert scan.textual != [];
    }
  }

  lemma NoneRaised(w: World, blocks: seq<Block>, used: nat)
    requires !SomeRaised(w, used, Calls(blocks))
    ensures !SomeRaised(w, used, |UseIds(blocks)|) && !SomeRaised(w, used + |UseIds(blocks)|, |Proposed(blocks)|)
  {
    SplitRaised(w, used, |UseIds(blocks)|, |Proposed(blocks)|);
  }

  lemma ScanReplies(w: World, blocks: seq<Block>, used: nat)
    requires !SomeRaised(w, used, |UseIds(blocks)|)
    ensures var scan := ScanBlocks(w, blocks, used);
      && !scan.raised && scan.textual == Proposed(blocks) && scan.used == used + |UseIds(blocks)|
      && scan.results == Results(w, UseIds(blocks), used) && (scan.results == [] <==> UseIds(blocks) == [])
  {
    ScanSays(w, blocks, used);
    ScanRaisesIff(w, blocks, used);
    ScanTold(w, blocks, used);
    ScanResults(w, blocks, used);
  }

  lemma TextualReplies(w: World, calls: seq<Call>, iteration: nat, used: nat)
    requires !SomeRaised(w, used, |calls|)
    ensures var done := RunTextual(w, calls, iteration, used);
      !done.raised && done.content == [TextPart(INTRO)] + Told(w, calls, used) && done.used == used + |calls|
  {
    TextualSays(w, calls, iteration, used);
    TextualTold(w, calls, iteration, used);
  }

  /** The turn for a scanned response. */
  lemma TurnShape(w: World, p: Progress, iteration: nat, blocks: seq<Block>, scan: Scan, done: Fallback)
    requires p.status.Going? && w.api(iteration) == Response(blocks) && scan == ScanBlocks(w, blocks, p.used) && !scan.raised
    requires scan.textual != [] ==> done == RunTextual(w, scan.textual, iteration, scan.used) && !done.raised
    ensures var q, heard := TurnOf(w, p, iteration), p.messages + [FromAssistant(blocks)];
      if scan.textual != [] then q.messages == heard + [FromUser(done.content)] && q.status == Going && q.used == done.used
      else if scan.results != [] then q.messages == heard + [FromUser(scan.results)] && q.status == Going && q.used == scan.used
      else q.messages == heard && q.status == Answered(scan.texts) && q.used == scan.used
  {
  }

  lemma ReplyWithProposals(w: World, blocks: seq<Block>, used: nat)
    requires Proposed(blocks) != []
    ensures ReplyTo(w, blocks, used) == [TextPart(INTRO)] + Told(w, Proposed(blocks), used + |UseIds(blocks)|)
    ensures Calls(blocks) == |UseIds(blocks)| + |Proposed(blocks)|
  {
    hide Told, Proposed, UseIds;
  }

  lemma ProposalsReplied(w: World, blocks: seq<Block>, iteration: nat, used: nat, calls: seq<Call>, from: nat)
    requires calls == Proposed(blocks) != [] && from == used + |UseIds(blocks)| && !SomeRaised(w, from, |calls|)
    ensures var done := RunTextual(w, calls, iteration, from);
      !done.raised && done.content == ReplyTo(w, blocks, used) && done.used == used + Calls(blocks)
  {
    hide *;
    TextualReplies(w, calls, iteration, from);
    ReplyWithProposals(w, blocks, used);
  }

  lemma Reply(w: World, blocks: seq<Block>, iteration: nat, used: nat) returns (scan: Scan, done: Fallback)
    requires Calls(blocks) > 0 && !SomeRaised(w, used, Calls(blocks))
    ensures scan == ScanBlocks(w, blocks, used) && !scan.raised
    ensures scan.textual != [] ==>
      && done == RunTextual(w, scan.textual, iteration, scan.used) && !done.raised
      && done.content == ReplyTo(w, blocks, used) && done.used == used + Calls(blocks)
    ensures scan.textual == [] ==>
      scan.results == ReplyTo(w, blocks, used) && scan.results != [] && scan.used == used + Calls(blocks)
  {
    NoneRaised(w, blocks, used);
    ScanReplies(w, blocks, used);
    scan := ScanBlocks(w, blocks, used);
    var calls, from := scan.textual, scan.used;
    done := RunTextual(w, calls, iteration, from);
    if calls != [] { ProposalsReplied(w, blocks, iteration, used, calls, from); }
  }

  /** Any other one is answered with the results of its calls. */
  lemma TurnContinues(w: World, p: Progress, iteration: nat, blocks: seq<Block>)
    requires p.status.Going? && w.api(iteration) == Response(blocks)
    requires Calls(blocks) > 0 && !SomeRaised(w, p.used, Calls(blocks))
    ensures var q := TurnOf(w, p, iteration);
      && q.messages == p.messages + [FromAssistant(blocks)] + [FromUser(ReplyTo(w, blocks, p.used))]
      && q.status == Going && q.used == p.used + Calls(blocks)
  {
    var scan, done := Reply(w, blocks, iteration, p.used);
    TurnShape(w, p, iteration, blocks, scan, done);
  }

  /** What a turn whose tools all returned calls back: the texts and the calls of its response, then the proposed calls. */
  lemma TurnSays(w: World, p: Progress, iteration: nat)
    requires p.status.Going? && w.api(iteration).Response?
    ensures var q, blocks := TurnOf(w, p, iteration), w.api(iteration).blocks;
      q.status != Failing(ToolFailure) ==>
        && TextsOf(q.calls) == TextsOf(p.calls) + Spoken(blocks)
        && StartsOf(q.calls) == StartsOf(p.calls) + (Announced(blocks) + AnnouncedAs(Proposed(blocks), iteration))
  {
    var blocks := w.api(iteration).blocks;
    var scan := ScanBlocks(w, blocks, p.used);
    ScanSays(w, blocks, p.used);
    SaysAppend(p.calls, scan.calls);
    if !scan.raised && scan.textual != [] {
      var done := RunTextual(w, scan.textual, iteration, scan.used);
      TextualSays(w, scan.textual, iteration, scan.used);
      SaysAppend(p.calls + scan.calls, done.calls);
      Nested(StartsOf(p.calls), Announced(blocks), AnnouncedAs(Proposed(blocks), iteration));
      assert TextsOf(p.calls) + Spoken(blocks) + [] == TextsOf(p.calls) + Spoken(blocks);
    } else {
      assert Announced(blocks) + [] == Announced(blocks);
    }
  }

  lemma Nested(a: seq<Callback>, b: seq<Callback>, c: seq<Callback>)
    ensures a + b + c == a + (b + c)
  {
  }

  // ---------- whole runs ----------

  /** The tool calls of the first n responses. */
  function UsedBy(w: World, n: nat): nat {
    if n == 0 then 0 else UsedBy(w, n - 1) + if w.api(n - 1).Response? then Calls(w.api(n - 1).blocks) else 0
  }

  /** The n-th response keeps the run going: it arrives, it has a call, and no tool of it raises. */
  ghost predicate GoesOn(w: World, n: nat) {
    && w.api(n).Response? && Calls(w.api(n).blocks) > 0
    && !SomeRaised(w, UsedBy(w, n), Calls(w.api(n).blocks))
  }

  ghost predicate AllGoOn(w: World, n: nat) {
    forall m :: 0 <= m < n ==> GoesOn(w, m)
  }

  lemma TurnGoesOn(w: World, p: Progress, n: nat)
    requires p.status.Going? && p.used == UsedBy(w, n)
    ensures var q := TurnOf(w, p, n);
      && (q.status.Going? <==> GoesOn(w, n))
      && (q.status.Going? ==> q.used == UsedBy(w, n + 1))
      && (q.status.Answered? <==> w.api(n).Response? && Calls(w.api(n).blocks) == 0)
      && (q.status.Answered? ==> q.status.texts == Spoken(w.api(n).blocks))
      && q.status != Failing(TooManyTurns)
      && (q.status == Failing(ApiFailure) <==> w.api(n).ApiError?)
      && (q.status == Failing(ToolFailure) <==> w.api(n).Response? && SomeRaised(w, UsedBy(w, n), Calls(w.api(n).blocks)))
  {
    if w.api(n).Response? {
      var blocks := w.api(n).blocks;
      if Calls(blocks) == 0 {
        TurnAnswered(w, p, n, blocks);
      } else if SomeRaised(w, p.used, Calls(blocks)) {
        TurnRaised(w, p, n, blocks);
      } else {
        TurnContinues(w, p, n, blocks);
      }
    }
  }

  lemma AfterNext(w: World, input: string, n: nat)
    ensures n == 0 ==> After(w, input, n).status.Going?
    ensures n > 0 ==>
      var p := After(w, input, n - 1);
      After(w, input, n) == if p.status.Going? then TurnOf(w, p, n - 1) else p
  {
    hide TurnOf;
  }

  /** A run is still going after n turns exactly if each of the first n responses kept it going. */
  lemma {:induction false} GoingIff(w: World, input: string, n: nat)
    ensures After(w, input, n).status.Going? <==> AllGoOn(w, n)
    ensures After(w, input, n).status.Going? ==> After(w, input, n).used == UsedBy(w, n)
  {
    hide TurnOf;
    if n > 0 {
      GoingIff(w, input, n - 1);
      var p := After(w, input, n - 1);
      assert AllGoOn(w, n) <==> AllGoOn(w, n - 1) && GoesOn(w, n - 1);
      if p.status.Going? { TurnGoesOn(w, p, n - 1); }
    }
  }

  /** Turn i of a conversation: the user's input, then each response, followed by the results of its calls. */
  ghost predicate TurnFits(w: World, input: string, turn: Turn, i: nat) {
    if i == 0 then turn == FromUser([TextPart(input)])
    else if i % 2 == 1 then w.api(i / 2).Response? && turn == FromAssistant(w.api(i / 2).blocks)
    else w.api(i / 2 - 1).Response? && turn == FromUser(ReplyTo(w, w.api(i / 2 - 1).blocks, UsedBy(w, i / 2 - 1)))
  }

  ghost predicate Converses(w: World, input: string, messages: seq<Turn>) {
    |messages| > 0 && forall i :: 0 <= i < |messages| ==> TurnFits(w, input, messages[i], i)
  }

  lemma ConversesMore(w: World, input: string, messages: seq<Turn>, turn: Turn)
    requires Converses(w, input, messages) && TurnFits(w, input, turn, |messages|)
    ensures Converses(w, input, messages + [turn])
  {
  }

  lemma HeardFits(w: World, input: string, n: nat, blocks: seq<Block>)
    requires w.api(n) == Response(blocks)
    ensures TurnFits(w, input, FromAssistant(blocks), 2 * n + 1)
    ensures TurnFits(w, input, FromUser(ReplyTo(w, blocks, UsedBy(w, n))), 2 * n + 2)
  {
    assert (2 * n + 1) / 2 == n && (2 * n + 2) / 2 == n + 1;
  }

  lemma HeardConverses(w: World, input: string, messages: seq<Turn>, n: nat, blocks: seq<Block>)
    requires Converses(w, input, messages) && |messages| == 2 * n + 1 && w.api(n) == Response(blocks)
    ensures Converses(w, input, messages + [FromAssistant(blocks)])
    ensures Converses(w, input, messages + [FromAssistant(blocks)] + [FromUser(ReplyTo(w, blocks, UsedBy(w, n)))])
  {
    var reply := FromUser(ReplyTo(w, blocks, UsedBy(w, n)));
    HeardFits(w, input, n, blocks);
    ConversesMore(w, input, messages, FromAssistant(blocks));
    ConversesMore(w, input, messages + [FromAssistant(blocks)], reply);
  }

  lemma TurnConverses(w: World, input: string, p: Progress, n: nat)
    requires p.status.Going? && p.used == UsedBy(w, n) && Converses(w, input, p.messages) && |p.messages| == 2 * n + 1
    ensures var q := TurnOf(w, p, n);
      && Converses(w, input, q.messages) && (q.status.Going? ==> |q.messages| == 2 * n + 3)
      && (q.status.Answered? ==> q.messages[|q.messages| - 1] == FromAssistant(w.api(n).blocks))
  {
    if w.api(n).Response? {
      var blocks := w.api(n).blocks;
      HeardConverses(w, input, p.messages, n, blocks);
      if Calls(blocks) == 0 {
        TurnAnswered(w, p, n, blocks);
      } else if SomeRaised(w, p.used, Calls(blocks)) {
        TurnRaised(w, p, n, blocks);
      } else {
        TurnContinues(w, p, n, blocks);
      }
    }
  }

  lemma {:induction false} RunConverses(w: World, input: string, n: nat)
    ensures Converses(w, input, After(w, input, n).messages)
    ensures After(w, input, n).status.Going? ==> |After(w, input, n).messages| == 2 * n + 1
  {
    hide TurnOf;
    if n == 0 {
      assert TurnFits(w, input, FromUser([TextPart(input)]), 0);
    } else {
      RunConverses(w, input, n - 1);
      GoingIff(w, input, n - 1);
      var p := After(w, input, n - 1);
      if p.status.Going? { TurnConverses(w, input, p, n - 1); }
    }
  }

  /** Response n is the first that does not keep the run going, and it has no calls. */
  ghost predicate AnswersAt(w: World, n: nat) {
    AllGoOn(w, n) && w.api(n).Response? && Calls(w.api(n).blocks) == 0
  }

  /** The answer of a run within n turns. */
  ghost predicate AnsweredBy(w: World, n: nat, texts: seq<string>) {
    exists k :: 0 <= k < n && AnswersAt(w, k) && texts == Spoken(w.api(k).blocks)
  }

  lemma AnsweredLater(w: World, n: nat, texts: seq<string>)
    ensures AnsweredBy(w, n + 1, texts) <==> AnsweredBy(w, n, texts) || (AnswersAt(w, n) && texts == Spoken(w.api(n).blocks))
    ensures AllGoOn(w, n) ==> !AnsweredBy(w, n, texts)
  {
    if AllGoOn(w, n) {
      forall k | 0 <= k < n ensures !AnswersAt(w, k) { assert GoesOn(w, k); }
    }
  }

  lemma {:induction false} EndsWith(w: World, input: string, n: nat, texts: seq<string>)
    ensures After(w, input, n).status == Answered(texts) <==> AnsweredBy(w, n, texts)
    ensures After(w, input, n).status != Failing(TooManyTurns)
  {
    hide TurnOf;
    if n > 0 {
      EndsWith(w, input, n - 1, texts);
      GoingIff(w, input, n - 1);
      AnsweredLater(w, n - 1, texts);
      var p := After(w, input, n - 1);
      if p.status.Going? { TurnGoesOn(w, p, n - 1); }
    }
  }

  /** Every response before the n-th kept the run going; the n-th request fails, or a tool of its response raises. */
  ghost predicate FailsAt(w: World, n: nat, reason: Reason) {
    && AllGoOn(w, n)
    && (reason == ApiFailure ==> w.api(n).ApiError?)
    && (reason == ToolFailure ==> w.api(n).Response? && SomeRaised(w, UsedBy(w, n), Calls(w.api(n).blocks)))
  }

  ghost predicate FailedBy(w: World, n: nat, reason: Reason) {
    exists k :: 0 <= k < n && FailsAt(w, k, reason)
  }

  lemma FailedLater(w: World, n: nat, reason: Reason)
    requires reason == ApiFailure || reason == ToolFailure
    ensures FailedBy(w, n + 1, reason) <==> FailedBy(w, n, reason) || FailsAt(w, n, reason)
    ensures AllGoOn(w, n) ==> !FailedBy(w, n, reason)
  {
    if AllGoOn(w, n) {
      forall k | 0 <= k < n ensures !FailsAt(w, k, reason) { assert GoesOn(w, k); }
    }
  }

  /** A run fails exactly if a request that it came to failed, or a tool of a response that it came to raised. */
  lemma {:induction false} FailsIff(w: World, input: string, n: nat, reason: Reason)
    requires reason == ApiFailure || reason == ToolFailure
    ensures After(w, input, n).status == Failing(reason) <==> FailedBy(w, n, reason)
  {
    hide TurnOf, FailedBy;
    AfterNext(w, input, n);
    if n > 0 {
      FailsIff(w, input, n - 1, reason);
      GoingIff(w, input, n - 1);
      FailedLater(w, n - 1, reason);
      var p := After(w, input, n - 1);
      if p.status.Going? { TurnGoesOn(w, p, n - 1); }
    } else {
      NotFailedBy(w, reason);
    }
  }

  lemma NotFailedBy(w: World, reason: Reason)
    ensures !FailedBy(w, 0, reason)
  {
  }

  /** How a run ends. It is answered with the texts of the first response without calls, if every response before kept it
      going; it fails for too many turns exactly if every response within the limit kept it going. Its conversation is the
      input and the responses, each followed by the results of its calls. */
  lemma OutcomeIs(w: World, input: string, limit: nat, texts: seq<string>)
    ensures var q := Outcome(w, input, limit);
      && Converses(w, input, q.messages)
      && (q.status == Answered(texts) <==> AnsweredBy(w, limit, texts))
      && (q.status == Failing(TooManyTurns) <==> AllGoOn(w, limit))
      && (q.status == Failing(ApiFailure) <==> FailedBy(w, limit, ApiFailure))
      && (q.status == Failing(ToolFailure) <==> FailedBy(w, limit, ToolFailure))
  {
    RunConverses(w, input, limit);
    GoingIff(w, input, limit);
    EndsWith(w, input, limit, texts);
    FailsIff(w, input, limit, ApiFailure);
    FailsIff(w, input, limit, ToolFailure);
  }

  /** The answer of a run is the last turn of its conversation: it has no calls, and its texts are the answer. */
  lemma {:induction false} AnswerIsLastTurn(w: World, input: string, limit: nat)
    requires After(w, input, limit).status.Answered?
    ensures var q := After(w, input, limit);
      && q.messages != []
      && var last := q.messages[|q.messages| - 1];
         last.FromAssistant? && Calls(last.blocks) == 0 && q.status.texts == Spoken(last.blocks)
  {
    hide *;
    AfterNext(w, input, limit);
    var p := After(w, input, limit - 1);
    if p.status.Going? {
      GoingIff(w, input, limit - 1);
      RunConverses(w, input, limit - 1);
      TurnGoesOn(w, p, limit - 1);
      TurnConverses(w, input, p, limit - 1);
    } else {
      AfterNext(w, input, limit - 1);
      AnswerIsLastTurn(w, input, limit - 1);
    }
  }

  function Heard(w: World, n: nat): seq<Block> {
    if w.api(n).Response? then w.api(n).blocks else []
  }

  /** Everything said in the first n responses. */
  function SpokenUpTo(w: World, n: nat): seq<string> {
    if n == 0 then [] else SpokenUpTo(w, n - 1) + Spoken(Heard(w, n - 1))
  }

  /** Every call of the first n responses, as announced. */
  function AnnouncedUpTo(w: World, n: nat): seq<Callback> {
    if n == 0 then []
    else AnnouncedUpTo(w, n - 1) + (Announced(Heard(w, n - 1)) + AnnouncedAs(Proposed(Heard(w, n - 1)), n - 1))
  }

  /** Over a run that no tool ended: the texts called back are those of the responses heard, and the calls announced are
      theirs, all in order. */
  lemma {:induction false} RunSays(w: World, input: string, n: nat)
    requires var status := After(w, input, n).status; status.Going? || status.Answered?
    ensures var q := After(w, input, n);
      exists k :: 0 <= k <= n && (q.status.Going? ==> k == n)
        && TextsOf(q.calls) == SpokenUpTo(w, k) && StartsOf(q.calls) == AnnouncedUpTo(w, k)
  {
    hide TurnOf, Spoken, Announced, AnnouncedAs, Proposed;
    AfterNext(w, input, n);
    if n == 0 {
      assert TextsOf(After(w, input, 0).calls) == SpokenUpTo(w, 0) && StartsOf(After(w, input, 0).calls) == AnnouncedUpTo(w, 0);
    } else {
      RunSays(w, input, n - 1);
      var p := After(w, input, n - 1);
      if p.status.Going? {
        GoingIff(w, input, n - 1);
        TurnGoesOn(w, p, n - 1);
        if w.api(n - 1).Response? { TurnSays(w, p, n - 1); }
        assert TextsOf(After(w, input, n).calls) == SpokenUpTo(w, n) && StartsOf(After(w, input, n).calls) == AnnouncedUpTo(w, n);
      }
    }
  }
}
