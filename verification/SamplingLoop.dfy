/** The message list that the sampling loop updates in place. */
module SamplingLoop {
  import opened Conversation
  import opened SampledTurns
  import opened Wrappers

  lemma PartAtomsExtend(parts: seq<Part>, n: nat)
    requires n < |parts|
    ensures PartAtoms(parts[..n + 1]) == PartAtoms(parts[..n]) + [PartAtom(parts[n])]
  {
    assert parts[..n + 1][..n] == parts[..n];
  }

  lemma BlocksAtomsExtend(blocks: seq<Block>, n: nat)
    requires n < |blocks|
    ensures BlocksAtoms(blocks[..n + 1]) == BlocksAtoms(blocks[..n]) + BlockAtoms(blocks[n])
  {
    assert blocks[..n + 1][..n] == blocks[..n];
  }

  lemma AtomsExtend(ms: seq<Message>, n: nat)
    requires n < |ms|
    ensures Atoms(ms[..n + 1]) == Atoms(ms[..n]) + MessageAtoms(ms[n])
  {
    assert ms[..n + 1][..n] == ms[..n];
  }

  /** A list without its first images, followed by the next piece without its first remaining images. */
  lemma DropNext(done: seq<Atom>, next: seq<Atom>, n: nat, left: nat)
    requires left == Minus(n, |Shots(done)|)
    ensures DropShots(done + next, n) == DropShots(done, n) + DropShots(next, left)
    ensures Minus(n, |Shots(done + next)|) == Minus(left, |Shots(next)|)
  {
    DropShotsAppend(done, next, n);
    ShotsAppend(done, next);
  }

  lemma OneOther(atom: Atom, n: nat)
    requires !atom.Shot?
    ensures DropShots([atom], n) == [atom] && Shots([atom]) == []
  {
    assert [atom][1..] == [] && [atom][..0] == [];
    assert DropShots([], n) == [] && Shots([]) == [];
  }

  lemma DropFrame(open: Atom, atoms: seq<Atom>, close: Atom, n: nat)
    requires !open.Shot? && !close.Shot?
    ensures DropShots([open] + atoms + [close], n) == [open] + DropShots(atoms, n) + [close]
    ensures |Shots([open] + atoms + [close])| == |Shots(atoms)|
  {
    OneOther(open, n);
    OneOther(close, Minus(n, |Shots(atoms)|));
    DropNext([open], atoms, n, n);
    ShotsAppend([open], atoms);
    DropNext([open] + atoms, [close], n, Minus(n, |Shots(atoms)|));
    ShotsAppend([open] + atoms, [close]);
  }

  lemma OnePart(part: Part, n: nat)
    ensures DropShots([PartAtom(part)], n) == if part.Image? && n > 0 then [] else [PartAtom(part)]
    ensures Minus(n, |Shots([PartAtom(part)])|) == if part.Image? && n > 0 then n - 1 else n
  {
    var atom := PartAtom(part);
    assert [atom][1..] == [] && [atom][..0] == [];
    assert DropShots([], n) == [] && Shots([]) == [];
    assert n > 0 ==> DropShots([], n - 1) == [];
  }

  lemma PartAppended(parts: seq<Part>, part: Part)
    ensures PartAtoms(parts + [part]) == PartAtoms(parts) + [PartAtom(part)]
    ensures PartAtoms(parts) + [] == PartAtoms(parts)
  {
    assert (parts + [part])[..|parts|] == parts;
  }

  lemma BlockAppended(blocks: seq<Block>, block: Block)
    ensures BlocksAtoms(blocks + [block]) == BlocksAtoms(blocks) + BlockAtoms(block)
  {
    assert (blocks + [block])[..|blocks|] == blocks;
  }

  /** The inner loop of the truncation over the content of one tool result. */
  method FilterParts(parts: seq<Part>, toRemove: nat) returns (kept: seq<Part>, left: nat)
    ensures PartAtoms(kept) == DropShots(PartAtoms(parts), toRemove)
    ensures left == Minus(toRemove, |Shots(PartAtoms(parts))|)
  {
    kept, left := [], toRemove;
    for i := 0 to |parts|
      invariant PartAtoms(kept) == DropShots(PartAtoms(parts[..i]), toRemove)
      invariant left == Minus(toRemove, |Shots(PartAtoms(parts[..i]))|)
    {
      PartAtomsExtend(parts, i);
      DropNext(PartAtoms(parts[..i]), [PartAtom(parts[i])], toRemove, left);
      OnePart(parts[i], left);
      PartAppended(kept, parts[i]);
      if parts[i].Image? && left > 0 {
        left := left - 1;
      } else {
        kept := kept + [parts[i]];
      }
    }
    assert parts[..|parts|] == parts;
  }

  /** The tool results of one content list. */
  method FilterBlocks(blocks: seq<Block>, toRemove: nat) returns (kept: seq<Block>, left: nat)
    ensures BlocksAtoms(kept) == DropShots(BlocksAtoms(blocks), toRemove)
    ensures left == Minus(toRemove, |Shots(BlocksAtoms(blocks))|)
  {
    kept, left := [], toRemove;
    for i := 0 to |blocks|
      invariant BlocksAtoms(kept) == DropShots(BlocksAtoms(blocks[..i]), toRemove)
      invariant left == Minus(toRemove, |Shots(BlocksAtoms(blocks[..i]))|)
    {
      BlocksAtomsExtend(blocks, i);
      DropNext(BlocksAtoms(blocks[..i]), BlockAtoms(blocks[i]), toRemove, left);
      var block, rest := FilterBlock(blocks[i], left);
      BlockAppended(kept, block);
      kept, left := kept + [block], rest;
    }
    assert blocks[..|blocks|] == blocks;
  }

  method FilterBlock(block: Block, toRemove: nat) returns (kept: Block, left: nat)
    ensures BlockAtoms(kept) == DropShots(BlockAtoms(block), toRemove)
    ensures left == Minus(toRemove, |Shots(BlockAtoms(block))|)
  {
    kept, left := block, toRemove;
    if block.ToolResult? {
      DropFrame(OpenResult(block.id, block.isError, block.cached), ContentAtoms(block.content), CloseResult, toRemove);
      if block.content.Parts? {
        var parts;
        parts, left := FilterParts(block.content.parts, toRemove);
        kept := block.(content := Parts(parts));
      }
    }
  }

  /** The number of images in tool results. */
  method CountImages(messages: seq<Message>) returns (total: nat)
    ensures total == Images(messages)
  {
    total := 0;
    for i := 0 to |messages|
      invariant total == Images(messages[..i])
    {
      AtomsExtend(messages, i);
      ShotsAppend(Atoms(messages[..i]), MessageAtoms(messages[i]));
      total := total + |Shots(MessageAtoms(messages[i]))|;
    }
    assert messages[..|messages|] == messages;
  }

  lemma PlainMessage(m: Message, n: nat)
    requires m.content.Words?
    ensures DropShots(MessageAtoms(m), n) == MessageAtoms(m) && Shots(MessageAtoms(m)) == []
  {
    DropFrame(Atom.Open(m.role), [Says(m.content.words)], Atom.Close, n);
    assert [Says(m.content.words)][..0] == [];
  }

  method FilterMessage(message: Message, toRemove: nat) returns (kept: Message, left: nat)
    ensures MessageAtoms(kept) == DropShots(MessageAtoms(message), toRemove)
    ensures left == Minus(toRemove, |Shots(MessageAtoms(message))|)
  {
    kept, left := message, toRemove;
    if message.content.Blocks? {
      DropFrame(Atom.Open(message.role), BlocksAtoms(message.content.blocks), Atom.Close, toRemove);
      var blocks;
      blocks, left := FilterBlocks(message.content.blocks, toRemove);
      kept := message.(content := Blocks(blocks));
    } else {
      PlainMessage(message, toRemove);
    }
  }

  lemma NextMessage(was: seq<Message>, now: seq<Message>, message: Message, i: nat, remove: nat, left: nat)
    requires i < |was| == |now| && left == Minus(remove, |Shots(Atoms(was[..i]))|)
    requires Atoms(now[..i]) == DropShots(Atoms(was[..i]), remove)
    requires MessageAtoms(message) == DropShots(MessageAtoms(was[i]), left)
    ensures var next := now[i := message];
      && next[i + 1..] == now[i + 1..]
      && Atoms(next[..i + 1]) == DropShots(Atoms(was[..i + 1]), remove)
      && Minus(remove, |Shots(Atoms(was[..i + 1]))|) == Minus(left, |Shots(MessageAtoms(was[i]))|)
  {
    var next := now[i := message];
    assert next[..i] == now[..i];
    AtomsExtend(was, i);
    AtomsExtend(next, i);
    DropNext(Atoms(was[..i]), MessageAtoms(was[i]), remove, left);
  }

  /** What a call makes of message `i`, with `left` breakpoints remaining; `None` where it raises. */
  function Visit(m: Message, left: nat): Option<Message> {
    if !IsTurn(m) then Some(m)
    else if m.content.blocks == [] then None
    else Some(SetMark(m, left > 0))
  }

  function Visited(m: Message, left: nat): Message {
    if Visit(m, left).Some? then Visit(m, left).value else m
  }

  /** How a call continues below message `i`, followed by the messages it has been through. */
  lemma InjectFrom(was: seq<Message>, i: nat, left: nat, done: seq<Message>)
    requires i < |was|
    ensures var all, m := Inject(was[..i + 1], left), Visit(was[i], left);
      if m.None? then all == Injected(was[..i + 1], false)
      else if IsTurn(was[i]) && left == 0 then all.ok && all.messages + done == was[..i] + ([m.value] + done)
      else
        var rest := Inject(was[..i], if IsTurn(was[i]) then left - 1 else left);
        all.ok == rest.ok && all.messages + done == rest.messages + ([m.value] + done)
  {
    assert was[..i + 1][..i] == was[..i];
    if Visit(was[i], left).Some? {
      var m := Visit(was[i], left).value;
      forall xs: seq<Message> ensures xs + [m] + done == xs + ([m] + done) {}
    }
  }

  lemma Replaced(was: seq<Message>, i: nat, done: seq<Message>, m: Message)
    requires i < |was|
    ensures var now := was[..i + 1] + done;
      now[i] == was[i] && now[i := m] == was[..i] + ([m] + done)
  {
  }

  predicate Clean(blocks: seq<Block>) {
    forall j :: 0 <= j < |blocks| ==> !blocks[j].cached
  }

  class Sampling {
    var messages: seq<Message>

    constructor (messages: seq<Message>)
      ensures this.messages == messages
    {
      this.messages := messages;
    }

    /** `_maybe_filter_to_n_most_recent_images`. Only a zero threshold raises, on the remainder, before
        anything is changed. */
    method FilterImages(keep: Option<int>, threshold: int) returns (ok: bool)
      modifies this
      ensures ok == (keep.None? || threshold != 0)
      ensures keep.None? || !ok ==> messages == old(messages)
      ensures keep.Some? && ok ==>
        Atoms(messages) == DropShots(Atoms(old(messages)), ToRemove(Images(old(messages)), keep.value, threshold))
      ensures |messages| == |old(messages)|
    {
      if keep.None? { return true; }
      var total := CountImages(messages);
      if threshold == 0 { return false; }
      ghost var was := messages;
      var remove := ToRemove(total, keep.value, threshold);
      var left, i := remove, 0;
      while i < |messages|
        invariant 0 <= i <= |messages| == |was| && messages[i..] == was[i..]
        invariant Atoms(messages[..i]) == DropShots(Atoms(was[..i]), remove)
        invariant left == Minus(remove, |Shots(Atoms(was[..i]))|)
      {
        var before := messages;
        assert before[i..][0] == was[i..][0];
        assert before[i + 1..] == before[i..][1..] == was[i..][1..] == was[i + 1..];
        var message, rest := FilterMessage(before[i], left);
        NextMessage(was, before, message, i, remove, left);
        messages, left, i := before[i := message], rest, i + 1;
      }
      assert messages[..i] == messages && was[..i] == was;
      return true;
    }

    /** One turn of the loop below: `ok` is false where it raises, `more` where it goes on. */
    method VisitMessage(i: nat, remaining: nat) returns (ok: bool, more: bool, left: nat)
      requires i < |messages|
      modifies this
      ensures ok == Visit(old(messages)[i], remaining).Some?
      ensures messages == if ok then old(messages)[i := Visit(old(messages)[i], remaining).value] else old(messages)
      ensures more == (ok && !(IsTurn(old(messages)[i]) && remaining == 0))
      ensures more ==> left == if IsTurn(old(messages)[i]) then remaining - 1 else remaining
    {
      var m := messages[i];
      left := remaining;
      if IsTurn(m) {
        if m.content.blocks == [] { return false, false, left; }
        if remaining == 0 {
          messages := messages[i := SetMark(m, false)];
          return true, false, left;
        }
        messages := messages[i := SetMark(m, true)];
        left := remaining - 1;
      }
      return true, true, left;
    }

    /** `_inject_prompt_caching`. */
    method InjectPromptCaching() returns (ok: bool)
      modifies this
      ensures messages == Inject(old(messages), BREAKPOINTS).messages
      ensures ok == Inject(old(messages), BREAKPOINTS).ok
    {
      ghost var was := messages;
      ghost var done: seq<Message> := [];
      var remaining, i := BREAKPOINTS, |messages|;
      ghost var full := Inject(was, BREAKPOINTS).messages;
      assert was[..i] == was == was + done && full + done == full;
      while i > 0
        invariant 0 <= i <= |messages| && i <= |was| && messages == was[..i] + done
        invariant Inject(was, BREAKPOINTS) == Injected(Inject(was[..i], remaining).messages + done, Inject(was[..i], remaining).ok)
      {
        i := i - 1;
        InjectFrom(was, i, remaining, done);
        Replaced(was, i, done, Visited(was[i], remaining));
        var go, more, left := VisitMessage(i, remaining);
        if !go || !more { return go; }
        done, remaining := [Visited(was[i], remaining)] + done, left;
      }
      assert was[..0] == [];
      return true;
    }

    /** What the loop does to the messages before a request. `keep` is its `only_n_most_recent_images`. */
    method Prepare(anthropic: bool, keep: Option<int>) returns (ok: bool, next: Option<int>)
      modifies this
      ensures next == if anthropic then Some(0) else keep
      ensures anthropic ==> messages == Inject(old(messages), BREAKPOINTS).messages
      ensures anthropic ==> ok == Inject(old(messages), BREAKPOINTS).ok
      ensures !anthropic ==> ok
      ensures !anthropic && (keep.None? || keep.value == 0) ==> messages == old(messages)
      ensures !anthropic && keep.Some? && keep.value != 0 ==>
        Atoms(messages) == DropShots(Atoms(old(messages)), ToRemove(Images(old(messages)), keep.value, keep.value))
    {
      ok, next := true, keep;
      var threshold := if keep.Some? then keep.value else 0;
      if anthropic {
        ok := InjectPromptCaching();
        next := Some(0);
      }
      if next.Some? && next.value != 0 {
        ok := FilterImages(next, threshold);
      }
    }

    /** One request: the messages are prepared, sent, and get the reply; `more` if the loop goes on. */
    method Exchange(anthropic: bool, onlyRecent: Option<int>, keep: Option<int>, reply: Reply, ghost heard: seq<Message>)
      returns (ok: bool, next: Option<int>, request: seq<Message>, more: bool)
      requires reply.Replied? ==> Clean(reply.blocks) && Clean(reply.results)
      requires Holds(anthropic, onlyRecent, messages, heard) && (!anthropic ==> keep == onlyRecent)
      modifies this
      ensures !anthropic ==> ok && next == onlyRecent
      ensures ok ==> Holds(anthropic, onlyRecent, request, heard) && more == Continues(reply)
      ensures ok ==> Holds(anthropic, onlyRecent, messages, heard + TurnsOf(reply))
      ensures anthropic && Ready(old(messages)) ==> ok && MarksRight(request) && (more ==> Ready(messages))
      ensures FewWanted(anthropic, onlyRecent) ==> Images(request) < 2 * onlyRecent.value
    {
      hide Holds, Ready, MarksRight, Images, Inject, Atoms, DropShots, ToRemove, TurnsOf, Clean;
      ghost var was := messages;
      request, more := [], false;
      if anthropic && Ready(was) { InjectedReady(was, reply); }
      ok, next := Prepare(anthropic, keep);
      if !ok { return; }
      PreparedHolds(anthropic, onlyRecent, was, messages, heard);
      if FewWanted(anthropic, onlyRecent) { FewImages(was, messages, onlyRecent.value); }
      request := messages;
      HoldsMore(anthropic, onlyRecent, messages, heard, TurnsOf(reply));
      Appended(messages, reply);
      if reply.Failed? { return; }
      more := reply.results != [];
      messages := messages + [Message(Assistant, Blocks(reply.blocks))];
      if !more { return; }
      messages := messages + [Message(User, Blocks(reply.results))];
    }

    /** The sampling loop over the given replies; `sent` are the message lists of its requests, and `ok` is
        false if preparing one raised. There is one request for each reply up to the first that has no results to
        send back, and each holds the conversation so far. With prompt caching, however many turns the loop takes,
        every request has the right marks and none raises, if the conversation given to it had no marks beyond its
        last four turns. Without it, every request has fewer than twice the wanted number of images. */
    method Sample(anthropic: bool, onlyRecent: Option<int>, replies: seq<Reply>)
      returns (ok: bool, sent: seq<seq<Message>>)
      requires forall k :: 0 <= k < |replies| && replies[k].Replied? ==> Clean(replies[k].blocks) && Clean(replies[k].results)
      modifies this
      ensures anthropic && Ready(old(messages)) ==> ok && forall k :: 0 <= k < |sent| ==> MarksRight(sent[k])
      ensures !anthropic ==> ok
      ensures FewWanted(anthropic, onlyRecent) ==> forall k :: 0 <= k < |sent| ==> Images(sent[k]) < 2 * onlyRecent.value
      ensures |sent| <= |replies|
      ensures forall k :: 0 <= k < |sent| ==> Holds(anthropic, onlyRecent, sent[k], Heard(old(messages), replies[..k]))
      ensures ok ==> StopsAt(replies, |sent|)
      ensures ok ==> Holds(anthropic, onlyRecent, messages, Heard(old(messages), replies[..|sent|]))
    {
      hide Holds, Heard, MarksRight, Ready, Images, Continues, TurnsOf, Clean;
      ok, sent := true, [];
      var keep := onlyRecent;
      ghost var start := messages;
      assert replies[..0] == [];
      StartHolds(anthropic, onlyRecent, messages);
      for k := 0 to |replies|
        invariant ok && |sent| == k && (!anthropic ==> keep == onlyRecent)
        invariant anthropic && Ready(start) ==> Ready(messages) && forall k :: 0 <= k < |sent| ==> MarksRight(sent[k])
        invariant FewWanted(anthropic, onlyRecent) ==> forall k :: 0 <= k < |sent| ==> Images(sent[k]) < 2 * onlyRecent.value
        invariant forall j :: 0 <= j < k ==> Continues(replies[j])
        invariant forall k :: 0 <= k < |sent| ==> Holds(anthropic, onlyRecent, sent[k], Heard(start, replies[..k]))
        invariant Holds(anthropic, onlyRecent, messages, Heard(start, replies[..k]))
      {
        var request, more;
        ok, keep, request, more := Exchange(anthropic, onlyRecent, keep, replies[k], Heard(start, replies[..k]));
        if !ok { return; }
        sent := sent + [request];
        HeardMore(start, replies, k);
        if !more { return; }
      }
      assert replies[..|replies|] == replies;
    }
  }

  /** The marks of earlier calls are within the last four turns, and none of these is empty. */
  ghost predicate Ready(ms: seq<Message>) {
    MarksRecent(ms) && !HasEmptyTurn(ms, BREAKPOINTS)
  }

  predicate FewWanted(anthropic: bool, keep: Option<int>) {
    !anthropic && keep.Some? && keep.value > 0
  }

  /** A request from a conversation that is ready has the right marks, and with the results of its response the
      conversation is ready for the next one. */
  lemma InjectedReady(was: seq<Message>, reply: Reply)
    requires Ready(was) && (reply.Replied? ==> Clean(reply.blocks) && Clean(reply.results))
    ensures var out := Inject(was, BREAKPOINTS);
      out.ok && MarksRight(out.messages) && (Continues(reply) ==> Ready(out.messages + TurnsOf(reply)))
  {
    hide Inject;
    InjectionFailsIff(was);
    InjectionSettlesIff(was);
    var out := Inject(was, BREAKPOINTS).messages;
    if Continues(reply) {
      InjectKeepsTurns(was);
      OneMoreTurn(out, reply.blocks, reply.results);
      Appended(out, reply);
    }
  }

  lemma Appended(ms: seq<Message>, reply: Reply)
    ensures reply.Failed? ==> ms + TurnsOf(reply) == ms
    ensures reply.Replied? ==>
      ms + TurnsOf(reply) ==
        (if reply.results == [] then ms + [Message(Assistant, Blocks(reply.blocks))]
         else ms + [Message(Assistant, Blocks(reply.blocks))] + [Message(User, Blocks(reply.results))])
  {
  }

  lemma StartHolds(anthropic: bool, keep: Option<int>, ms: seq<Message>)
    ensures Holds(anthropic, keep, ms, Heard(ms, []))
  {
    assert Shots(Atoms(ms)) == Shots(Atoms(ms))[0..];
  }

  /** What preparing a request leaves of the conversation. */
  lemma PreparedHolds(anthropic: bool, keep: Option<int>, was: seq<Message>, now: seq<Message>, heard: seq<Message>)
    requires Holds(anthropic, keep, was, heard)
    requires anthropic ==> now == Inject(was, BREAKPOINTS).messages
    requires !anthropic && (keep.None? || keep.value == 0) ==> now == was
    requires !anthropic && keep.Some? && keep.value != 0 ==>
      Atoms(now) == DropShots(Atoms(was), ToRemove(Images(was), keep.value, keep.value))
    ensures Holds(anthropic, keep, now, heard)
  {
    if anthropic {
      InjectIsPlain(was, BREAKPOINTS);
    } else if keep.Some? && keep.value != 0 {
      HoldsDropped(keep.value, Atoms(was), Atoms(heard));
    }
  }

  lemma FewImages(was: seq<Message>, now: seq<Message>, keep: nat)
    requires keep > 0 && Atoms(now) == DropShots(Atoms(was), ToRemove(Images(was), keep, keep))
    ensures Images(now) < 2 * keep
  {
    OldestImagesGo(Atoms(was), ToRemove(Images(was), keep, keep));
    TruncationSettles(Images(was), keep, keep);
  }
}
