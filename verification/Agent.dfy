/** The agent loop: what it says to the model, what it calls back, for every sequence of model responses
    and tool outcomes. Textual tool calls are given with the text block they were parsed from. */
module Agent {
  import opened Wrappers
  import Json

  datatype Call = Call(name: string, input: string)

  datatype Block =
    | Text(text: string, calls: seq<Call>)
    | ToolUse(id: string, name: string, input: string)
    | OtherBlock

  datatype ToolResult = ToolResult(
    output: Option<string>,
    error: Option<string>,
    image: Option<string>,
    system: Option<string>)

  datatype ToolOutcome = Returned(result: ToolResult) | Raised

  datatype ApiOutcome = Response(blocks: seq<Block>) | ApiError

  /** The model and the tools: the answer to the n-th request and to the n-th tool call. */
  datatype World = World(api: nat -> ApiOutcome, tools: nat -> ToolOutcome)

  datatype Callback =
    | MessageText(text: string)
    | Started(id: string, name: string, input: string)
    | Result(id: string, isError: bool, output: string)
    | Screenshot(id: string)

  datatype Content =
    | TextPart(text: string)
    | ImagePart(data: string)
    | ResultPart(id: string, parts: seq<Content>, isError: bool)

  datatype Turn = FromUser(content: seq<Content>) | FromAssistant(blocks: seq<Block>)

  const OUTPUT_LIMIT: nat := 10000

  predicate Truthy(s: Option<string>) {
    s.Some? && s.value != ""
  }

  function Or(a: Option<string>, b: Option<string>): Option<string> {
    if Truthy(a) then a else b
  }

  function Text0(s: Option<string>): string {
    if s.Some? then s.value else ""
  }

  /** `_tool_result_block`. */
  function ToolResultBlock(r: ToolResult, id: string): Content {
    var said := Or(r.error, r.output);
    var text := if Truthy(r.system) then Some("<system>" + r.system.value + "</system>\n" + Text0(said)) else said;
    ResultPart(id,
      (if Truthy(text) then [TextPart(text.value)] else []) + (if Truthy(r.image) then [ImagePart(r.image.value)] else []),
      Truthy(r.error))
  }

  /** `tool_output_callback`. */
  function ResultCalls(r: ToolResult, id: string): seq<Callback> {
    var output := Text0(Or(r.error, r.output));
    [Result(id, Truthy(r.error), if |output| <= OUTPUT_LIMIT then output else output[..OUTPUT_LIMIT])]
    + (if Truthy(r.image) then [Screenshot(id)] else [])
  }

  /** `_fallback_result_content`. */
  function FallbackContent(name: string, r: ToolResult): seq<Content> {
    var said := Or(r.error, r.output);
    var status := if Truthy(r.error) then "error" else "success";
    var output := if Truthy(said) then said.value else "(no textual output)";
    [TextPart("Actual sandbox result for " + name + " (" + status + "):\n" + output)]
    + (if Truthy(r.image) then [ImagePart(r.image.value)] else [])
  }

  const INTRO: string :=
    "The previous response contained proposed textual tool calls. "
    + "Ignore any claimed outputs in that response. The following are "
    + "the real results produced by the isolated sandbox. Continue from "
    + "these results and use another tool call if verification is needed."

  // ---------- one response ----------

  /** `used` counts tool calls; `raised` is set when a tool raised. */
  datatype Scan = Scan(
    calls: seq<Callback>,
    results: seq<Content>,
    texts: seq<string>,
    textual: seq<Call>,
    used: nat,
    raised: bool)

  function ScanBlock(w: World, scan: Scan, block: Block): Scan {
    match block
    case OtherBlock => scan
    case Text(text, calls) =>
      if text == "" then scan
      else if calls != [] then scan.(textual := scan.textual + calls)
      else scan.(calls := scan.calls + [MessageText(text)], texts := scan.texts + [text])
    case ToolUse(id, name, input) =>
      var started := scan.(calls := scan.calls + [Started(id, name, input)], used := scan.used + 1);
      match w.tools(scan.used)
      case Raised => started.(raised := true)
      case Returned(r) =>
        started.(calls := started.calls + ResultCalls(r, id), results := scan.results + [ToolResultBlock(r, id)])
  }

  function ScanBlocks(w: World, blocks: seq<Block>, used: nat): Scan {
    if blocks == [] then Scan([], [], [], [], used, false)
    else
      var n := |blocks| - 1;
      var scan := ScanBlocks(w, blocks[..n], used);
      if scan.raised then scan else ScanBlock(w, scan, blocks[n])
  }

  /** The textual calls of a response, executed after its blocks. */
  datatype Fallback = Fallback(calls: seq<Callback>, content: seq<Content>, used: nat, raised: bool)

  function TextToolId(iteration: nat, index: nat): string {
    "text-tool-" + Json.Decimal(iteration + 1) + "-" + Json.Decimal(index + 1)
  }

  function TextualCall(w: World, done: Fallback, call: Call, id: string): Fallback {
    var started := done.(calls := done.calls + [Started(id, call.name, call.input)], used := done.used + 1);
    match w.tools(done.used)
    case Raised => started.(raised := true)
    case Returned(r) =>
      started.(calls := started.calls + ResultCalls(r, id), content := done.content + FallbackContent(call.name, r))
  }

  function RunTextual(w: World, textual: seq<Call>, iteration: nat, used: nat): Fallback {
    if textual == [] then Fallback([], [TextPart(INTRO)], used, false)
    else
      var n := |textual| - 1;
      var done := RunTextual(w, textual[..n], iteration, used);
      if done.raised then done else TextualCall(w, done, textual[n], TextToolId(iteration, n))
  }

  // ---------- the loop ----------

  datatype Reason = ApiFailure | ToolFailure | TooManyTurns | NoRuntime | BufferFull | SinkFailed

  datatype Status = Going | Answered(texts: seq<string>) | Failing(reason: Reason)

  datatype Progress = Progress(messages: seq<Turn>, calls: seq<Callback>, used: nat, status: Status)

  function TurnOf(w: World, p: Progress, iteration: nat): Progress {
    match w.api(iteration)
    case ApiError => p.(status := Failing(ApiFailure))
    case Response(blocks) =>
      var scan := ScanBlocks(w, blocks, p.used);
      var heard := p.(messages := p.messages + [FromAssistant(blocks)], calls := p.calls + scan.calls, used := scan.used);
      if scan.raised then heard.(status := Failing(ToolFailure))
      else if scan.textual != [] then
        var done := RunTextual(w, scan.textual, iteration, scan.used);
        var executed := heard.(calls := heard.calls + done.calls, used := done.used);
        if done.raised then executed.(status := Failing(ToolFailure))
        else executed.(messages := heard.messages + [FromUser(done.content)])
      else if scan.results == [] then heard.(status := Answered(scan.texts))
      else heard.(messages := heard.messages + [FromUser(scan.results)])
  }

  function After(w: World, input: string, n: nat): Progress {
    if n == 0 then Progress([FromUser([TextPart(input)])], [], 0, Going)
    else
      var p := After(w, input, n - 1);
      if p.status.Going? then TurnOf(w, p, n - 1) else p
  }

  /** The whole run with its iteration limit, if no callback overflows the buffer. */
  function Outcome(w: World, input: string, limit: nat): Progress {
    var p := After(w, input, limit);
    if p.status.Going? then p.(status := Failing(TooManyTurns)) else p
  }

  // ---------- callbacks ----------

  predicate PairedAt(cs: seq<Callback>, i: nat)
    requires i < |cs|
  {
    match cs[i]
    case MessageText(_) => true
    case Started(id, _, _) => i + 1 < |cs| ==> cs[i + 1].Result? && cs[i + 1].id == id
    case Result(id, _, _) => 0 < i && cs[i - 1].Started? && cs[i - 1].id == id
    case Screenshot(id) => 0 < i && cs[i - 1].Result? && cs[i - 1].id == id
  }

  /** A TOOL_STARTED is directly followed by its TOOL_RESULT unless it is the last callback; a TOOL_RESULT
      directly follows its TOOL_STARTED, and a screenshot its TOOL_RESULT. Prefixes keep this. */
  ghost predicate Paired(cs: seq<Callback>) {
    forall i :: 0 <= i < |cs| ==> PairedAt(cs, i)
  }

  /** No tool call is left without its result. */
  predicate Settled(cs: seq<Callback>) {
    cs == [] || !cs[|cs| - 1].Started?
  }

  predicate Opens(cs: seq<Callback>) {
    cs == [] || cs[0].MessageText? || cs[0].Started?
  }

  lemma PairedAppend(a: seq<Callback>, b: seq<Callback>)
    requires Paired(a) && Settled(a) && Paired(b) && Opens(b)
    ensures Paired(a + b) && (Settled(b) ==> Settled(a + b))
    ensures Opens(a) ==> Opens(a + b)
  {
    var cs := a + b;
    forall i | 0 <= i < |cs| ensures PairedAt(cs, i) {
      if i < |a| { assert PairedAt(a, i); } else { assert PairedAt(b, i - |a|); }
    }
  }

  lemma PairedPrefix(cs: seq<Callback>, n: nat)
    requires Paired(cs) && n <= |cs|
    ensures Paired(cs[..n])
  {
    forall i | 0 <= i < n ensures PairedAt(cs[..n], i) { assert PairedAt(cs, i); }
  }

  lemma OneCallPaired(id: string, name: string, input: string, r: ToolResult)
    ensures var cs := [Started(id, name, input)] + ResultCalls(r, id); Paired(cs) && Settled(cs) && Opens(cs)
  {
  }

  lemma {:induction false} ScanPaired(w: World, blocks: seq<Block>, used: nat)
    ensures var scan := ScanBlocks(w, blocks, used);
      Paired(scan.calls) && Opens(scan.calls) && (!scan.raised ==> Settled(scan.calls))
  {
    if blocks != [] {
      var n := |blocks| - 1;
      ScanPaired(w, blocks[..n], used);
      var scan := ScanBlocks(w, blocks[..n], used);
      if !scan.raised {
        match blocks[n]
        case ToolUse(id, name, input) =>
          var head := [Started(id, name, input)];
          match w.tools(scan.used) {
            case Raised => PairedAppend(scan.calls, head);
            case Returned(r) =>
              OneCallPaired(id, name, input, r);
              PairedAppend(scan.calls, head + ResultCalls(r, id));
              assert scan.calls + head + ResultCalls(r, id) == scan.calls + (head + ResultCalls(r, id));
          }
        case Text(text, _) => PairedAppend(scan.calls, [MessageText(text)]);
        case OtherBlock =>
      }
    }
  }

  lemma {:induction false} TextualPaired(w: World, textual: seq<Call>, iteration: nat, used: nat)
    ensures var done := RunTextual(w, textual, iteration, used);
      Paired(done.calls) && Opens(done.calls) && (!done.raised ==> Settled(done.calls))
  {
    if textual != [] {
      var n := |textual| - 1;
      TextualPaired(w, textual[..n], iteration, used);
      var done := RunTextual(w, textual[..n], iteration, used);
      if !done.raised {
        var call, id := textual[n], TextToolId(iteration, n);
        var head := [Started(id, call.name, call.input)];
        match w.tools(done.used)
        case Raised => PairedAppend(done.calls, head);
        case Returned(r) =>
          OneCallPaired(id, call.name, call.input, r);
          PairedAppend(done.calls, head + ResultCalls(r, id));
          assert done.calls + head + ResultCalls(r, id) == done.calls + (head + ResultCalls(r, id));
      }
    }
  }

  ghost predicate CallsPaired(p: Progress) {
    Paired(p.calls) && Opens(p.calls) && (p.status != Failing(ToolFailure) ==> Settled(p.calls))
  }

  lemma TurnPaired(w: World, p: Progress, iteration: nat)
    requires CallsPaired(p) && p.status.Going?
    ensures CallsPaired(TurnOf(w, p, iteration))
  {
    if w.api(iteration).Response? {
      var blocks := w.api(iteration).blocks;
      var scan := ScanBlocks(w, blocks, p.used);
      ScanPaired(w, blocks, p.used);
      PairedAppend(p.calls, scan.calls);
      if !scan.raised && scan.textual != [] {
        TextualPaired(w, scan.textual, iteration, scan.used);
        PairedAppend(p.calls + scan.calls, RunTextual(w, scan.textual, iteration, scan.used).calls);
      }
    }
  }

  lemma {:induction false} RunPaired(w: World, input: string, n: nat)
    ensures CallsPaired(After(w, input, n))
  {
    hide TurnOf;
    if n > 0 {
      RunPaired(w, input, n - 1);
      var p := After(w, input, n - 1);
      if p.status.Going? {
        TurnPaired(w, p, n - 1);
      } else {
        assert After(w, input, n) == p;
      }
    }
  }

  /** For every sequence of responses and tool outcomes the callbacks are paired, and a tool call is left
      without its result only if its tool raised, which ends the run. */
  lemma CallbacksArePaired(w: World, input: string, limit: nat)
    ensures Paired(Outcome(w, input, limit).calls)
    ensures Outcome(w, input, limit).status != Failing(ToolFailure) ==> Settled(Outcome(w, input, limit).calls)
  {
    RunPaired(w, input, limit);
  }

  // ---------- the conversation ----------

  function UseIds(blocks: seq<Block>): seq<string> {
    if blocks == [] then []
    else
      var n := |blocks| - 1;
      UseIds(blocks[..n]) + (if blocks[n].ToolUse? then [blocks[n].id] else [])
  }

  function ResultIds(content: seq<Content>): seq<string> {
    if content == [] then []
    else
      var n := |content| - 1;
      ResultIds(content[..n]) + (if content[n].ResultPart? then [content[n].id] else [])
  }

  predicate HasTextualCalls(blocks: seq<Block>) {
    exists i :: 0 <= i < |blocks| && Textual(blocks[i])
  }

  lemma ResultIdsAppend(content: seq<Content>, c: Content)
    ensures ResultIds(content + [c]) == ResultIds(content) + (if c.ResultPart? then [c.id] else [])
  {
    assert (content + [c])[..|content|] == content;
  }

  lemma {:induction false} ScanResults(w: World, blocks: seq<Block>, used: nat)
    ensures var scan := ScanBlocks(w, blocks, used);
      !scan.raised ==> ResultIds(scan.results) == UseIds(blocks) && (scan.results == [] <==> UseIds(blocks) == [])
  {
    if blocks != [] {
      var n := |blocks| - 1;
      ScanResults(w, blocks[..n], used);
      var scan, block := ScanBlocks(w, blocks[..n], used), blocks[n];
      if !scan.raised && block.ToolUse? && w.tools(scan.used).Returned? {
        ResultIdsAppend(scan.results, ToolResultBlock(w.tools(scan.used).result, block.id));
      } else {
        assert UseIds(blocks[..n]) + [] == UseIds(blocks[..n]);
      }
    }
  }

  predicate Textual(block: Block) {
    block.Text? && block.text != "" && block.calls != []
  }

  lemma HasTextualLast(blocks: seq<Block>)
    requires blocks != []
    ensures HasTextualCalls(blocks) <==> HasTextualCalls(blocks[..|blocks| - 1]) || Textual(blocks[|blocks| - 1])
  {
    var n := |blocks| - 1;
    if HasTextualCalls(blocks[..n]) {
      var i :| 0 <= i < n && Textual(blocks[..n][i]);
      assert Textual(blocks[i]);
    }
    if i :| 0 <= i < |blocks| && Textual(blocks[i]) && i < n {
      assert Textual(blocks[..n][i]);
    }
  }

  lemma {:induction false} ScanTextual(w: World, blocks: seq<Block>, used: nat)
    ensures var scan := ScanBlocks(w, blocks, used);
      !scan.raised ==> (scan.textual != [] <==> HasTextualCalls(blocks))
  {
    if blocks != [] {
      ScanTextual(w, blocks[..|blocks| - 1], used);
      HasTextualLast(blocks);
    }
  }

  /** The result of a tool run, as sent for a tool call. */
  predicate IsResult(outcome: ToolOutcome, id: string, content: Content) {
    outcome.Returned? && content == ToolResultBlock(outcome.result, id)
  }

  /** The k-th tool call of a response gets the result of the k-th tool run, under its own id. */
  lemma {:induction false} ResultsInOrder(w: World, blocks: seq<Block>, used: nat)
    ensures var scan, ids := ScanBlocks(w, blocks, used), UseIds(blocks);
      !scan.raised ==>
        && |scan.results| == |ids| && scan.used == used + |ids|
        && forall k :: 0 <= k < |ids| ==> IsResult(w.tools(used + k), ids[k], scan.results[k])
  {
    if blocks != [] {
      var n := |blocks| - 1;
      ResultsInOrder(w, blocks[..n], used);
      var scan, before := ScanBlocks(w, blocks[..n], used), UseIds(blocks[..n]);
      if !scan.raised && blocks[n].ToolUse? && w.tools(scan.used).Returned? {
        var ids, results := before + [blocks[n].id], scan.results + [ToolResultBlock(w.tools(scan.used).result, blocks[n].id)];
        forall k | 0 <= k < |ids| ensures IsResult(w.tools(used + k), ids[k], results[k]) {
          if k < |before| { assert ids[k] == before[k] && results[k] == scan.results[k]; }
        }
      } else {
        assert before + [] == before;
      }
    }
  }

  function StartedIds(cs: seq<Callback>): seq<string> {
    if cs == [] then []
    else
      var n := |cs| - 1;
      StartedIds(cs[..n]) + (if cs[n].Started? then [cs[n].id] else [])
  }

  lemma {:induction false} StartedAppend(a: seq<Callback>, b: seq<Callback>)
    ensures StartedIds(a + b) == StartedIds(a) + StartedIds(b)
  {
    if b == [] {
      assert a + b == a;
    } else {
      var n := |b| - 1;
      StartedAppend(a, b[..n]);
      assert (a + b)[..|a + b| - 1] == a + b[..n] && (a + b)[|a + b| - 1] == b[n];
    }
  }

  lemma OneStarted(id: string, name: string, input: string, r: ToolResult)
    ensures StartedIds([Started(id, name, input)]) == [id] && StartedIds(ResultCalls(r, id)) == []
  {
    assert [Started(id, name, input)][..0] == [];
    var cs := ResultCalls(r, id);
    assert cs[..1] == [cs[0]] && [cs[0]][..0] == [];
  }

  /** Tool calls are announced in their order, all of them unless a tool raised. */
  lemma {:induction false} AnnouncedInOrder(w: World, blocks: seq<Block>, used: nat)
    ensures var scan := ScanBlocks(w, blocks, used);
      StartedIds(scan.calls) <= UseIds(blocks) && (!scan.raised ==> StartedIds(scan.calls) == UseIds(blocks))
  {
    if blocks != [] {
      var n := |blocks| - 1;
      AnnouncedInOrder(w, blocks[..n], used);
      var scan, block := ScanBlocks(w, blocks[..n], used), blocks[n];
      if !scan.raised && block.ToolUse? {
        var head := [Started(block.id, block.name, block.input)];
        StartedAppend(scan.calls, head);
        var r := if w.tools(scan.used).Returned? then w.tools(scan.used).result else ToolResult(None, None, None, None);
        OneStarted(block.id, block.name, block.input, r);
        StartedAppend(scan.calls + head, ResultCalls(r, block.id));
      } else if !scan.raised && block.Text? {
        StartedAppend(scan.calls, [MessageText(block.text)]);
        assert [MessageText(block.text)][..0] == [];
      }
    }
  }

  /** What the user is shown of a tool result is what the model is told: the same error flag, the same
      text (cut for the user, behind the system note for the model) and an image exactly with a screenshot event. */
  lemma ShownIsTold(r: ToolResult, id: string)
    ensures var block, cs, said := ToolResultBlock(r, id), ResultCalls(r, id), Text0(Or(r.error, r.output));
      && block.id == id && cs[0].Result? && cs[0].id == id && cs[0].isError == block.isError
      && cs[0].output <= said && (|said| <= OUTPUT_LIMIT ==> cs[0].output == said)
      && (|cs| == 2 <==> block.parts != [] && block.parts[|block.parts| - 1].ImagePart?)
      && (said != "" || Truthy(r.system) <==> block.parts != [] && block.parts[0].TextPart?)
      && (said != "" || Truthy(r.system) ==>
            var text := block.parts[0].text;
            |said| <= |text| && text[|text| - |said|..] == said && (!Truthy(r.system) ==> text == said))
  {
  }

  predicate PlainParts(content: seq<Content>) {
    forall i :: 0 <= i < |content| ==> !content[i].ResultPart?
  }

  lemma {:induction false} PlainHasNoResults(content: seq<Content>)
    requires PlainParts(content)
    ensures ResultIds(content) == []
  {
    if content != [] { PlainHasNoResults(content[..|content| - 1]); }
  }

  lemma {:induction false} TextualIsPlain(w: World, textual: seq<Call>, iteration: nat, used: nat)
    ensures PlainParts(RunTextual(w, textual, iteration, used).content)
    ensures RunTextual(w, textual, iteration, used).content != []
  {
    if textual != [] { TextualIsPlain(w, textual[..|textual| - 1], iteration, used); }
  }

  /** A user turn that answers an assistant turn: it holds a result for every tool call of the turn, in
      order, if and only if the turn had no textual calls or no tool calls. */
  ghost predicate Answers(blocks: seq<Block>, content: seq<Content>) {
    && content != []
    && (ResultIds(content) == UseIds(blocks) <==> !HasTextualCalls(blocks) || UseIds(blocks) == [])
  }

  ghost predicate Alternating(messages: seq<Turn>) {
    && |messages| > 0
    && (forall i :: 0 <= i < |messages| ==> (messages[i].FromUser? <==> i % 2 == 0))
    && (forall i :: 0 <= i < |messages| - 1 && messages[i].FromAssistant? ==> Answers(messages[i].blocks, messages[i + 1].content))
  }

  lemma AlternatesHeard(messages: seq<Turn>, blocks: seq<Block>)
    requires Alternating(messages) && |messages| % 2 == 1
    ensures Alternating(messages + [FromAssistant(blocks)])
  {
    var all := messages + [FromAssistant(blocks)];
    assert forall i :: 0 <= i < |messages| ==> all[i] == messages[i];
    forall i | 0 <= i < |all| - 1 && all[i].FromAssistant? ensures Answers(all[i].blocks, all[i + 1].content) {
      assert all[i] == messages[i] && i + 1 < |messages|;
      assert all[i + 1] == messages[i + 1];
    }
  }

  lemma AlternatesAnswered(messages: seq<Turn>, blocks: seq<Block>, content: seq<Content>)
    requires Alternating(messages) && |messages| % 2 == 1 && Answers(blocks, content)
    ensures Alternating(messages + [FromAssistant(blocks)] + [FromUser(content)])
  {
    AlternatesHeard(messages, blocks);
    var heard := messages + [FromAssistant(blocks)];
    var all := heard + [FromUser(content)];
    forall i | 0 <= i < |all| - 1 && all[i].FromAssistant? ensures Answers(all[i].blocks, all[i + 1].content) {
      if i < |messages| { assert all[i] == heard[i] && all[i + 1] == heard[i + 1]; }
    }
  }

  /** The user turn sent after a scanned response answers it. */
  lemma TurnAnswers(w: World, blocks: seq<Block>, iteration: nat, used: nat)
    ensures var scan := ScanBlocks(w, blocks, used);
      && (!scan.raised && scan.textual != [] ==> Answers(blocks, RunTextual(w, scan.textual, iteration, scan.used).content))
      && (!scan.raised && scan.textual == [] && scan.results != [] ==> Answers(blocks, scan.results))
  {
    var scan := ScanBlocks(w, blocks, used);
    ScanResults(w, blocks, used);
    ScanTextual(w, blocks, used);
    if !scan.raised && scan.textual != [] {
      TextualIsPlain(w, scan.textual, iteration, scan.used);
      PlainHasNoResults(RunTextual(w, scan.textual, iteration, scan.used).content);
    }
  }

  lemma TurnAlternates(w: World, p: Progress, iteration: nat)
    requires p.status.Going? && Alternating(p.messages) && |p.messages| % 2 == 1
    ensures var q := TurnOf(w, p, iteration);
      Alternating(q.messages) && (q.status.Going? ==> |q.messages| % 2 == 1)
  {
    if w.api(iteration).Response? {
      var blocks := w.api(iteration).blocks;
      var scan := ScanBlocks(w, blocks, p.used);
      TurnAnswers(w, blocks, iteration, p.used);
      AlternatesHeard(p.messages, blocks);
      if scan.raised {
      } else if scan.textual != [] {
        var done := RunTextual(w, scan.textual, iteration, scan.used);
        AlternatesAnswered(p.messages, blocks, done.content);
      } else if scan.results != [] {
        AlternatesAnswered(p.messages, blocks, scan.results);
      }
    }
  }

  lemma {:induction false} RunAlternates(w: World, input: string, n: nat)
    ensures Alternating(After(w, input, n).messages)
    ensures After(w, input, n).status.Going? ==> |After(w, input, n).messages| % 2 == 1
  {
    hide TurnOf;
    if n > 0 {
      RunAlternates(w, input, n - 1);
      var p := After(w, input, n - 1);
      if p.status.Going? { TurnAlternates(w, p, n - 1); }
    }
  }

  /** The conversation alternates user and assistant turns, and every tool call of a continued turn gets its
      one result, in order, exactly when the turn mixes no textual calls with tool calls. */
  lemma ConversationAlternates(w: World, input: string, limit: nat)
    ensures Alternating(Outcome(w, input, limit).messages)
  {
    RunAlternates(w, input, limit);
  }
}
