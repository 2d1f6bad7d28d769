/** What the sampling loop sends: the conversation it was given and the replies so far, each response followed by
    its results, of which preparing a request changes marks or drops the oldest images only. */
module SampledTurns {
  import opened Conversation
  import opened Wrappers

  /** The answer to one request: an API error, or the response and the tool results made from it. */
  datatype Reply = Failed | Replied(blocks: seq<Block>, results: seq<Block>)

  function TurnsOf(reply: Reply): seq<Message> {
    match reply
    case Failed => []
    case Replied(blocks, results) =>
      [Message(Assistant, Blocks(blocks))] + (if results == [] then [] else [Message(User, Blocks(results))])
  }

  /** The conversation after replies. */
  function Heard(start: seq<Message>, replies: seq<Reply>): seq<Message> {
    if replies == [] then start
    else Heard(start, replies[..|replies| - 1]) + TurnsOf(replies[|replies| - 1])
  }

  /** The loop makes another request after this reply. */
  predicate Continues(reply: Reply) {
    reply.Replied? && reply.results != []
  }

  /** One request for each reply up to the first that does not continue. */
  ghost predicate StopsAt(replies: seq<Reply>, n: nat) {
    && n <= |replies|
    && (forall k :: 0 <= k < n - 1 ==> Continues(replies[k]))
    && (n == |replies| || (n > 0 && !Continues(replies[n - 1])))
  }

  // ---------- without marks ----------

  function PlainBlocks(blocks: seq<Block>): (r: seq<Block>)
    ensures |r| == |blocks| && forall j :: 0 <= j < |r| ==> r[j] == blocks[j].(cached := false)
  {
    seq(|blocks|, j requires 0 <= j < |blocks| => blocks[j].(cached := false))
  }

  function PlainMessage(m: Message): Message {
    if m.content.Blocks? then m.(content := Blocks(PlainBlocks(m.content.blocks))) else m
  }

  /** The conversation with its marks taken off. */
  function Plain(ms: seq<Message>): (r: seq<Message>)
    ensures |r| == |ms| && forall i :: 0 <= i < |r| ==> r[i] == PlainMessage(ms[i])
  {
    seq(|ms|, i requires 0 <= i < |ms| => PlainMessage(ms[i]))
  }

  lemma MarkIsPlain(m: Message, on: bool)
    requires m.content.Blocks? && m.content.blocks != []
    ensures PlainMessage(SetMark(m, on)) == PlainMessage(m)
  {
    assert PlainBlocks(SetMark(m, on).content.blocks) == PlainBlocks(m.content.blocks);
  }

  lemma PlainAppend(a: seq<Message>, b: seq<Message>)
    ensures Plain(a + b) == Plain(a) + Plain(b)
  {
  }

  lemma PlainLast(front: seq<Message>, front': seq<Message>, m: Message, m': Message)
    requires Plain(front') == Plain(front) && PlainMessage(m') == PlainMessage(m)
    ensures Plain(front' + [m']) == Plain(front + [m])
  {
    PlainAppend(front', [m']);
    PlainAppend(front, [m]);
    assert Plain([m']) == Plain([m]);
  }

  /** A call of the injection changes marks only. */
  lemma {:induction false} InjectIsPlain(ms: seq<Message>, left: nat)
    ensures Plain(Inject(ms, left).messages) == Plain(ms)
  {
    if ms != [] {
      var n := |ms| - 1;
      assert ms == ms[..n] + [ms[n]];
      if !IsTurn(ms[n]) {
        InjectIsPlain(ms[..n], left);
        PlainLast(ms[..n], Inject(ms[..n], left).messages, ms[n], ms[n]);
      } else if ms[n].content.blocks != [] {
        MarkIsPlain(ms[n], left > 0);
        if left > 0 {
          InjectIsPlain(ms[..n], left - 1);
          PlainLast(ms[..n], Inject(ms[..n], left - 1).messages, ms[n], SetMark(ms[n], true));
        } else {
          PlainLast(ms[..n], ms[..n], ms[n], SetMark(ms[n], false));
        }
      }
    }
  }

  // ---------- without images ----------

  ghost predicate IsSuffix(a: seq<Atom>, b: seq<Atom>) {
    |a| <= |b| && a == b[|b| - |a|..]
  }

  /** Everything but the oldest images is there, in order. */
  ghost predicate Newer(now: seq<Atom>, all: seq<Atom>) {
    Others(now) == Others(all) && IsSuffix(Shots(now), Shots(all))
  }

  lemma NewerAppend(now: seq<Atom>, all: seq<Atom>, more: seq<Atom>)
    requires Newer(now, all)
    ensures Newer(now + more, all + more)
  {
    hide Shots, Others;
    ShotsAppend(now, more);
    ShotsAppend(all, more);
    var a, b, s := Shots(now), Shots(all), Shots(more);
    assert (b + s)[|b| - |a|..] == b[|b| - |a|..] + s;
  }

  lemma SuffixDrop(a: seq<Atom>, b: seq<Atom>, n: nat)
    requires IsSuffix(a, b) && n <= |a|
    ensures IsSuffix(a[n..], b)
  {
    assert b[|b| - |a|..][n..] == b[|b| - |a| + n..];
  }

  lemma NewerDrop(now: seq<Atom>, all: seq<Atom>, n: nat)
    requires Newer(now, all)
    ensures Newer(DropShots(now, n), all)
  {
    hide Shots, Others, DropShots, IsSuffix;
    OldestImagesGo(now, n);
    SuffixDrop(Shots(now), Shots(all), Min(n, |Shots(now)|));
  }

  lemma AtomsOneMore(ms: seq<Message>, m: Message)
    ensures Atoms(ms + [m]) == Atoms(ms) + MessageAtoms(m)
  {
    hide MessageAtoms;
    assert (ms + [m])[..|ms|] == ms;
  }

  lemma {:induction false} AtomsAppend(a: seq<Message>, b: seq<Message>)
    ensures Atoms(a + b) == Atoms(a) + Atoms(b)
  {
    hide MessageAtoms;
    if b == [] {
      assert a + b == a;
    } else {
      hide Atoms;
      var front, last := b[..|b| - 1], b[|b| - 1];
      AtomsAppend(a, front);
      assert b == front + [last] && a + b == (a + front) + [last];
      AtomsOneMore(front, last);
      AtomsOneMore(a + front, last);
    }
  }

  // ---------- what a request holds ----------

  /** The messages of the loop are the conversation, up to its marks with prompt caching, up to its oldest images if
      only some are wanted, and exactly otherwise. The wanted number of images is there, if there are as many. */
  ghost predicate Holds(anthropic: bool, keep: Option<int>, now: seq<Message>, heard: seq<Message>) {
    if anthropic then Plain(now) == Plain(heard)
    else if keep.None? || keep.value == 0 then now == heard
    else HoldsNewer(keep.value, Atoms(now), Atoms(heard))
  }

  ghost predicate HoldsNewer(keep: int, now: seq<Atom>, heard: seq<Atom>) {
    && Newer(now, heard)
    && (keep > 0 ==>
          && (keep <= |Shots(heard)| ==> keep <= |Shots(now)|)
          && (|Shots(heard)| <= keep ==> now == heard))
  }

  lemma HoldsMore(anthropic: bool, keep: Option<int>, now: seq<Message>, heard: seq<Message>, more: seq<Message>)
    requires Holds(anthropic, keep, now, heard)
    ensures Holds(anthropic, keep, now + more, heard + more)
  {
    PlainAppend(now, more);
    PlainAppend(heard, more);
    AtomsAppend(now, more);
    AtomsAppend(heard, more);
    if !anthropic && keep.Some? && keep.value != 0 { NewerMore(keep.value, Atoms(now), Atoms(heard), Atoms(more)); }
  }

  lemma NewerMore(keep: int, now: seq<Atom>, heard: seq<Atom>, more: seq<Atom>)
    requires HoldsNewer(keep, now, heard)
    ensures HoldsNewer(keep, now + more, heard + more)
  {
    NewerAppend(now, heard, more);
    ShotsAppend(now, more);
    ShotsAppend(heard, more);
  }

  /** A truncation leaves at least the wanted images, and with no more than these everything. */
  lemma HoldsDropped(keep: int, now: seq<Atom>, heard: seq<Atom>)
    requires keep != 0 && HoldsNewer(keep, now, heard)
    ensures HoldsNewer(keep, DropShots(now, ToRemove(|Shots(now)|, keep, keep)), heard)
  {
    var n := ToRemove(|Shots(now)|, keep, keep);
    NewerDrop(now, heard, n);
    if keep > 0 {
      OldestImagesGo(now, n);
      TruncationSettles(|Shots(now)|, keep, keep);
      if |Shots(heard)| <= keep { DropNothing(now); }
    }
  }

  lemma HeardMore(start: seq<Message>, replies: seq<Reply>, k: nat)
    requires k < |replies|
    ensures Heard(start, replies[..k + 1]) == Heard(start, replies[..k]) + TurnsOf(replies[k])
  {
    assert replies[..k + 1][..k] == replies[..k];
  }
}
