/** The conversation of the sampling loop as values: its images, its cache marks, and the two functions
    that prepare it for a request. */
module Conversation {
  import opened Wrappers

  datatype Part = Image(data: string) | OtherPart(body: string)

  datatype ResultContent = Parts(parts: seq<Part>) | PlainText(text: string) | Missing

  /** A block of a message; `cached` is the presence of its `cache_control` key. Images outside tool
      results are other blocks. */
  datatype Block =
    | ToolResult(id: string, content: ResultContent, isError: bool, cached: bool)
    | OtherBlock(body: string, cached: bool)

  datatype Role = User | Assistant

  datatype Content = Blocks(blocks: seq<Block>) | Words(words: string)

  datatype Message = Message(role: Role, content: Content)

  // ---------- the conversation as one list ----------

  datatype Atom =
    | Open(role: Role)
    | Close
    | Says(words: string)
    | Plain(body: string, cached: bool)
    | OpenResult(id: string, isError: bool, cached: bool)
    | CloseResult
    | ResultText(text: string)
    | NoContent
    | Shot(data: string)
    | Detail(body: string)

  function PartAtom(p: Part): Atom {
    if p.Image? then Shot(p.data) else Detail(p.body)
  }

  function PartAtoms(parts: seq<Part>): seq<Atom> {
    if parts == [] then [] else PartAtoms(parts[..|parts| - 1]) + [PartAtom(parts[|parts| - 1])]
  }

  function ContentAtoms(c: ResultContent): seq<Atom> {
    match c
    case Parts(parts) => PartAtoms(parts)
    case PlainText(text) => [ResultText(text)]
    case Missing => [NoContent]
  }

  function BlockAtoms(b: Block): seq<Atom> {
    match b
    case ToolResult(id, content, isError, cached) => [OpenResult(id, isError, cached)] + ContentAtoms(content) + [CloseResult]
    case OtherBlock(body, cached) => [Plain(body, cached)]
  }

  function BlocksAtoms(blocks: seq<Block>): seq<Atom> {
    if blocks == [] then [] else BlocksAtoms(blocks[..|blocks| - 1]) + BlockAtoms(blocks[|blocks| - 1])
  }

  function MessageAtoms(m: Message): seq<Atom> {
    [Open(m.role)] + (if m.content.Blocks? then BlocksAtoms(m.content.blocks) else [Says(m.content.words)]) + [Close]
  }

  function Atoms(ms: seq<Message>): seq<Atom> {
    if ms == [] then [] else Atoms(ms[..|ms| - 1]) + MessageAtoms(ms[|ms| - 1])
  }

  function Shots(atoms: seq<Atom>): seq<Atom> {
    if atoms == [] then []
    else Shots(atoms[..|atoms| - 1]) + (if atoms[|atoms| - 1].Shot? then [atoms[|atoms| - 1]] else [])
  }

  function Others(atoms: seq<Atom>): seq<Atom> {
    if atoms == [] then []
    else Others(atoms[..|atoms| - 1]) + (if atoms[|atoms| - 1].Shot? then [] else [atoms[|atoms| - 1]])
  }

  function Images(ms: seq<Message>): nat {
    |Shots(Atoms(ms))|
  }

  lemma {:induction false} ShotsAppend(a: seq<Atom>, b: seq<Atom>)
    ensures Shots(a + b) == Shots(a) + Shots(b) && Others(a + b) == Others(a) + Others(b)
  {
    if b == [] {
      assert a + b == a;
    } else {
      var n := |b| - 1;
      ShotsAppend(a, b[..n]);
      assert (a + b)[..|a + b| - 1] == a + b[..n] && (a + b)[|a + b| - 1] == b[n];
    }
  }

  // ---------- image truncation ----------

  /** Python's floored remainder. */
  function Mod(a: int, b: int): (r: int)
    requires b != 0
    ensures if b > 0 then 0 <= r < b else b < r <= 0
  {
    if b > 0 then a % b else -((-a) % b)
  }

  /** The list without its first `n` images. */
  function DropShots(atoms: seq<Atom>, n: nat): seq<Atom> {
    if atoms == [] then []
    else if atoms[0].Shot? && n > 0 then DropShots(atoms[1..], n - 1)
    else [atoms[0]] + DropShots(atoms[1..], n)
  }

  function ToRemove(total: nat, keep: int, threshold: int): nat
    requires threshold != 0
  {
    var surplus := total - keep;
    var remove := surplus - Mod(surplus, threshold);
    if remove > 0 then remove else 0
  }

  function Min(a: nat, b: nat): nat { if a <= b then a else b }

  function Minus(n: nat, k: nat): nat { if n <= k then 0 else n - k }

  lemma {:induction false} DropShotsAppend(a: seq<Atom>, b: seq<Atom>, n: nat)
    ensures DropShots(a + b, n) == DropShots(a, n) + DropShots(b, Minus(n, |Shots(a)|))
  {
    if a == [] {
      assert a + b == b;
    } else {
      assert (a + b)[1..] == a[1..] + b;
      assert [a[0]] + a[1..] == a;
      ShotsAppend([a[0]], a[1..]);
      assert Shots([a[0]]) == if a[0].Shot? then [a[0]] else [];
      DropShotsAppend(a[1..], b, if a[0].Shot? && n > 0 then n - 1 else n);
    }
  }

  /** What truncation does to the conversation read as one list: the oldest images go, the newer images
      and everything else stay in place. */
  lemma {:induction false} OldestImagesGo(atoms: seq<Atom>, n: nat)
    ensures Shots(DropShots(atoms, n)) == Shots(atoms)[Min(n, |Shots(atoms)|)..]
    ensures Others(DropShots(atoms, n)) == Others(atoms)
  {
    if atoms != [] {
      var head, tail := [atoms[0]], atoms[1..];
      assert head + tail == atoms;
      ShotsAppend(head, tail);
      assert Shots(head) == (if atoms[0].Shot? then head else []) && Others(head) == if atoms[0].Shot? then [] else head;
      if atoms[0].Shot? && n > 0 {
        OldestImagesGo(tail, n - 1);
        assert Shots(atoms) == head + Shots(tail) && Others(atoms) == [] + Others(tail) == Others(tail);
      } else {
        OldestImagesGo(tail, n);
        ShotsAppend(head, DropShots(tail, n));
      }
    }
  }

  lemma {:induction false} DropNothing(atoms: seq<Atom>)
    ensures DropShots(atoms, 0) == atoms
  {
    if atoms != [] { DropNothing(atoms[1..]); }
  }

  /** With a threshold of at least 1 the images left are `keep` and a remainder below the threshold, or all
      of them when there are fewer than `keep`; then a second truncation removes nothing. */
  lemma TruncationSettles(total: nat, keep: nat, threshold: nat)
    requires threshold >= 1
    ensures var left := total - Min(ToRemove(total, keep, threshold), total);
      && left == (if total >= keep then keep + (total - keep) % threshold else total)
      && ToRemove(left, keep, threshold) == 0
  {
    if total >= keep {
      var left := keep + (total - keep) % threshold;
      RemoveChunks(total, keep, threshold);
      RemoveChunks(left, keep, threshold);
      Remainders(total - keep, threshold);
    }
  }

  /** Python's identity of quotient and remainder, the quotient rounded down. */
  lemma Floored(a: int, b: int) returns (q: int)
    requires b != 0
    ensures a == b * q + Mod(a, b)
  {
    if b > 0 {
      q := a / b;
    } else {
      q := (-a) / (-b);
      assert -a == (-b) * q + (-a) % (-b);
      assert (-b) * q == -(b * q);
    }
  }

  lemma NoMultipleBelow(t: int, q: int)
    requires t > 0
    ensures t * q <= 0 || t * q >= t
  {
    if q >= 1 { assert t * q == t + t * (q - 1); }
  }

  /** Images are removed in chunks of the threshold, as many as the surplus holds; a negative threshold rounds the
      surplus up instead. */
  lemma RemovedInChunks(total: nat, keep: int, threshold: int) returns (chunks: int)
    requires threshold != 0
    ensures ToRemove(total, keep, threshold) == threshold * chunks
    ensures var removed, surplus := ToRemove(total, keep, threshold), total - keep;
      && (threshold > 0 ==> if surplus < threshold then removed == 0 else removed <= surplus < removed + threshold)
      && (threshold < 0 ==> if surplus <= 0 then removed == 0 else surplus <= removed < surplus - threshold)
  {
    var surplus := total - keep;
    chunks := Floored(surplus, threshold);
    if threshold > 0 && surplus < threshold { NoMultipleBelow(threshold, chunks); }
    if threshold < 0 && surplus <= 0 {
      assert (-threshold) * (-chunks) == threshold * chunks;
      NoMultipleBelow(-threshold, -chunks);
    }
    if threshold * chunks <= 0 { chunks := 0; }
  }

  lemma Remainders(n: nat, t: nat)
    requires t >= 1
    ensures 0 <= n % t <= n && n % t % t == n % t
  {
  }

  lemma RemoveChunks(total: nat, keep: nat, threshold: nat)
    requires threshold >= 1 && total >= keep
    ensures ToRemove(total, keep, threshold) == (total - keep) - (total - keep) % threshold
  {
    Remainders(total - keep, threshold);
  }

  // ---------- cache marks ----------

  const BREAKPOINTS: nat := 3

  /** A user message whose content is a list: the turns that breakpoints are set on. */
  predicate IsTurn(m: Message) {
    m.role.User? && m.content.Blocks?
  }

  function SetMark(m: Message, on: bool): Message
    requires m.content.Blocks? && m.content.blocks != []
  {
    var blocks := m.content.blocks;
    m.(content := Blocks(blocks[|blocks| - 1 := blocks[|blocks| - 1].(cached := on)]))
  }

  datatype Injected = Injected(messages: seq<Message>, ok: bool)

  /** `_inject_prompt_caching` from the last message back with `left` breakpoints remaining. An empty
      content list raises; marks set before that stay. */
  function Inject(ms: seq<Message>, left: nat): Injected {
    if ms == [] then Injected([], true)
    else
      var n := |ms| - 1;
      if !IsTurn(ms[n]) then
        var rest := Inject(ms[..n], left);
        rest.(messages := rest.messages + [ms[n]])
      else if ms[n].content.blocks == [] then Injected(ms, false)
      else if left == 0 then Injected(ms[..n] + [SetMark(ms[n], false)], true)
      else
        var rest := Inject(ms[..n], left - 1);
        rest.(messages := rest.messages + [SetMark(ms[n], true)])
  }

  function Turns(ms: seq<Message>): nat {
    if ms == [] then 0 else Turns(ms[..|ms| - 1]) + if IsTurn(ms[|ms| - 1]) then 1 else 0
  }

  /** How many turns come after message `i`. */
  function Rank(ms: seq<Message>, i: nat): nat
    requires i < |ms|
  {
    Turns(ms[i + 1..])
  }

  lemma {:induction false} TurnsAppend(a: seq<Message>, b: seq<Message>)
    ensures Turns(a + b) == Turns(a) + Turns(b)
  {
    if b == [] {
      assert a + b == a;
    } else {
      var n := |b| - 1;
      TurnsAppend(a, b[..n]);
      assert (a + b)[..|a + b| - 1] == a + b[..n] && (a + b)[|a + b| - 1] == b[n];
    }
  }

  lemma RankAppend(a: seq<Message>, b: seq<Message>, i: nat)
    requires i < |a|
    ensures Rank(a + b, i) == Rank(a, i) + Turns(b)
  {
    var tail := a[i + 1..];
    assert (a + b)[i + 1..] == tail + b;
    TurnsAppend(tail, b);
  }

  predicate EmptyTurn(ms: seq<Message>, left: nat, i: nat) {
    i < |ms| && IsTurn(ms[i]) && Rank(ms, i) <= left && ms[i].content.blocks == []
  }

  ghost predicate HasEmptyTurn(ms: seq<Message>, left: nat) {
    exists i: nat :: EmptyTurn(ms, left, i)
  }

  /** What a call does to each message. */
  function Remarked(ms: seq<Message>, left: nat, i: nat): Message
    requires i < |ms| && !EmptyTurn(ms, left, i)
  {
    if IsTurn(ms[i]) && Rank(ms, i) <= left then SetMark(ms[i], Rank(ms, i) < left) else ms[i]
  }

  lemma RankInFront(ms: seq<Message>, i: nat)
    requires i < |ms|
    ensures i == |ms| - 1 ==> Rank(ms, i) == 0
    ensures i < |ms| - 1 ==> Rank(ms, i) == Rank(ms[..|ms| - 1], i) + if IsTurn(ms[|ms| - 1]) then 1 else 0
  {
    var n := |ms| - 1;
    if i < n {
      assert ms == ms[..n] + [ms[n]] && [ms[n]][..0] == [];
      RankAppend(ms[..n], [ms[n]], i);
    } else {
      assert ms[i + 1..] == [];
    }
  }

  /** How the messages before the last one see a call. */
  lemma RemarkedFront(ms: seq<Message>, left: nat, i: nat)
    requires i < |ms| - 1 && !EmptyTurn(ms, left, i)
    ensures var front, last := ms[..|ms| - 1], ms[|ms| - 1];
      && (IsTurn(last) && left == 0 ==> Remarked(ms, left, i) == ms[i])
      && (!IsTurn(last) ==> !EmptyTurn(front, left, i) && Remarked(ms, left, i) == Remarked(front, left, i))
      && (IsTurn(last) && left > 0 ==>
        !EmptyTurn(front, left - 1, i) && Remarked(ms, left, i) == Remarked(front, left - 1, i))
  {
    RankInFront(ms, i);
  }

  lemma {:induction false} InjectEach(ms: seq<Message>, left: nat)
    requires !HasEmptyTurn(ms, left)
    ensures Inject(ms, left).ok && |Inject(ms, left).messages| == |ms|
    ensures forall i :: 0 <= i < |ms| ==> Inject(ms, left).messages[i] == Remarked(ms, left, i)
  {
    if ms != [] {
      var n := |ms| - 1;
      var front, last := ms[..n], ms[n];
      RankInFront(ms, n);
      assert !EmptyTurn(ms, left, n);
      if IsTurn(last) && left == 0 {
        forall i | 0 <= i < n ensures Remarked(ms, left, i) == ms[i] { RemarkedFront(ms, left, i); }
      } else {
        var rest := if IsTurn(last) then left - 1 else left;
        forall i: nat ensures !EmptyTurn(front, rest, i) { if i < n { RemarkedFront(ms, left, i); } }
        InjectEach(front, rest);
        forall i | 0 <= i < n ensures Remarked(ms, left, i) == Remarked(front, rest, i) { RemarkedFront(ms, left, i); }
      }
    }
  }

  lemma {:induction false} InjectFails(ms: seq<Message>, left: nat, i: nat)
    requires EmptyTurn(ms, left, i)
    ensures !Inject(ms, left).ok
  {
    var n := |ms| - 1;
    var front, last := ms[..n], ms[n];
    if i < n {
      assert ms == front + [last];
      RankAppend(front, [last], i);
      assert Turns([last]) == (if IsTurn(last) then 1 else 0) by { assert [last][..0] == []; }
      if !IsTurn(last) { InjectFails(front, left, i); }
      else if last.content.blocks != [] { InjectFails(front, left - 1, i); }
    }
  }

  /** The call raises exactly when one of the last four turns has an empty content list. */
  lemma InjectionFailsIff(ms: seq<Message>)
    ensures Inject(ms, BREAKPOINTS).ok <==> !HasEmptyTurn(ms, BREAKPOINTS)
  {
    if HasEmptyTurn(ms, BREAKPOINTS) {
      var i: nat :| EmptyTurn(ms, BREAKPOINTS, i);
      InjectFails(ms, BREAKPOINTS, i);
    } else {
      InjectEach(ms, BREAKPOINTS);
    }
  }

  predicate Marked(ms: seq<Message>, i: nat, j: nat) {
    i < |ms| && ms[i].content.Blocks? && j < |ms[i].content.blocks| && ms[i].content.blocks[j].cached
  }

  /** The last block of a turn that has fewer than `k` turns after it. */
  predicate Breakpoint(ms: seq<Message>, k: nat, i: nat, j: nat) {
    i < |ms| && IsTurn(ms[i]) && Rank(ms, i) < k && j == |ms[i].content.blocks| - 1
  }

  /** Exactly the last three turns (or all, if fewer) carry a mark, each on its last block. */
  ghost predicate MarksRight(ms: seq<Message>) {
    forall i: nat, j: nat :: Marked(ms, i, j) <==> Breakpoint(ms, BREAKPOINTS, i, j)
  }

  /** No mark outside the last blocks of the last four turns. */
  ghost predicate MarksRecent(ms: seq<Message>) {
    forall i: nat, j: nat :: Marked(ms, i, j) ==> Breakpoint(ms, BREAKPOINTS + 1, i, j)
  }

  predicate Unmarked(ms: seq<Message>) {
    forall i, j :: 0 <= i < |ms| && ms[i].content.Blocks? && 0 <= j < |ms[i].content.blocks| ==> !ms[i].content.blocks[j].cached
  }

  /** What a call leaves behind, whatever was marked before: it keeps every mark beyond the last four turns. */
  lemma InjectedMarks(ms: seq<Message>, i: nat, j: nat)
    requires !HasEmptyTurn(ms, BREAKPOINTS)
    ensures var out := Inject(ms, BREAKPOINTS).messages;
      && (Breakpoint(out, BREAKPOINTS, i, j) <==> Breakpoint(ms, BREAKPOINTS, i, j))
      && (Marked(out, i, j) <==> Breakpoint(ms, BREAKPOINTS, i, j) || (Marked(ms, i, j) && !Breakpoint(ms, BREAKPOINTS + 1, i, j)))
  {
    InjectEach(ms, BREAKPOINTS);
    var out := Inject(ms, BREAKPOINTS).messages;
    if i < |ms| {
      assert out[i] == Remarked(ms, BREAKPOINTS, i);
      SameRanks(ms, out, i);
    }
  }

  lemma {:induction false} SameTurns(a: seq<Message>, b: seq<Message>)
    requires |a| == |b| && forall i :: 0 <= i < |a| ==> (IsTurn(a[i]) <==> IsTurn(b[i]))
    ensures Turns(a) == Turns(b)
  {
    if a != [] { SameTurns(a[..|a| - 1], b[..|b| - 1]); }
  }

  lemma SameRanks(ms: seq<Message>, out: seq<Message>, i: nat)
    requires i < |ms| == |out| && forall k :: 0 <= k < |ms| ==> (IsTurn(ms[k]) <==> IsTurn(out[k]))
    ensures Rank(ms, i) == Rank(out, i)
  {
    SameTurns(ms[i + 1..], out[i + 1..]);
  }

  /** A call leaves exactly the last three turns marked if and only if no mark was anywhere but on the last
      blocks of the last four turns. */
  lemma InjectionSettlesIff(ms: seq<Message>)
    requires !HasEmptyTurn(ms, BREAKPOINTS)
    ensures MarksRight(Inject(ms, BREAKPOINTS).messages) <==> MarksRecent(ms)
  {
    var out := Inject(ms, BREAKPOINTS).messages;
    forall i: nat, j: nat
      ensures (Marked(out, i, j) <==> Breakpoint(out, BREAKPOINTS, i, j))
        <==> (Marked(ms, i, j) ==> Breakpoint(ms, BREAKPOINTS + 1, i, j))
    {
      InjectedMarks(ms, i, j);
    }
  }

  lemma {:induction false} TurnWithRank(ms: seq<Message>, r: nat) returns (i: nat)
    requires r < Turns(ms)
    ensures i < |ms| && IsTurn(ms[i]) && Rank(ms, i) == r
  {
    var n := |ms| - 1;
    var front, last := ms[..n], ms[n];
    assert ms == front + [last];
    assert Turns([last]) == (if IsTurn(last) then 1 else 0) by { assert [last][..0] == []; }
    if IsTurn(last) && r == 0 {
      i := n;
      assert ms[n + 1..] == [];
    } else {
      i := TurnWithRank(front, if IsTurn(last) then r - 1 else r);
      RankAppend(front, [last], i);
    }
  }

  lemma AppendedMark(ms: seq<Message>, more: seq<Message>, i: nat, j: nat)
    requires Unmarked(more)
    ensures Marked(ms + more, i, j) <==> Marked(ms, i, j)
  {
  }

  lemma RecentAfter(ms: seq<Message>, more: seq<Message>)
    requires MarksRight(ms) && Unmarked(more)
    requires Turns(ms) == 0 || Turns(more) + Min(BREAKPOINTS, Turns(ms)) <= BREAKPOINTS + 1
    ensures MarksRecent(ms + more)
  {
    forall i: nat, j: nat | Marked(ms + more, i, j) ensures Breakpoint(ms + more, BREAKPOINTS + 1, i, j) {
      AppendedMark(ms, more, i, j);
      assert Breakpoint(ms, BREAKPOINTS, i, j);
      assert (ms + more)[i] == ms[i];
      RankAppend(ms, more, i);
      RankBelow(ms, i);
    }
  }

  lemma RankBelow(ms: seq<Message>, i: nat)
    requires i < |ms| && IsTurn(ms[i])
    ensures Rank(ms, i) < Turns(ms)
  {
    assert ms == ms[..i] + ([ms[i]] + ms[i + 1..]);
    TurnsAppend(ms[..i], [ms[i]] + ms[i + 1..]);
    TurnsAppend([ms[i]], ms[i + 1..]);
    assert Turns([ms[i]]) == 1 by { assert [ms[i]][..0] == []; }
  }

  lemma NotRecentAfter(ms: seq<Message>, more: seq<Message>)
    requires MarksRight(ms) && Unmarked(more) && !HasEmptyTurn(ms, BREAKPOINTS)
    requires Turns(ms) > 0 && Turns(more) + Min(BREAKPOINTS, Turns(ms)) > BREAKPOINTS + 1
    ensures !MarksRecent(ms + more)
  {
    var i := TurnWithRank(ms, Min(BREAKPOINTS, Turns(ms)) - 1);
    var j := |ms[i].content.blocks| - 1;
    assert !EmptyTurn(ms, BREAKPOINTS, i);
    assert Breakpoint(ms, BREAKPOINTS, i, j);
    assert Marked(ms, i, j);
    AppendedMark(ms, more, i, j);
    RankAppend(ms, more, i);
    assert !Breakpoint(ms + more, BREAKPOINTS + 1, i, j);
  }

  /** A conversation without marks gets one on the last block of each of its last three user turns that are lists. */
  lemma FirstMarks(ms: seq<Message>, i: nat, j: nat)
    requires Unmarked(ms) && !HasEmptyTurn(ms, BREAKPOINTS)
    ensures Marked(Inject(ms, BREAKPOINTS).messages, i, j) <==>
      i < |ms| && ms[i].role == User && ms[i].content.Blocks? && j == |ms[i].content.blocks| - 1 && Turns(ms[i + 1..]) <= 2
  {
    InjectedMarks(ms, i, j);
  }

  /** From a conversation with the right marks, after `Turns(more)` new turns, a call leaves the right marks if and
      only if there were no turns before or the new turns and the marked old ones are at most four. One new
      turn always satisfies this, two do not once three turns exist. */
  lemma NewTurnsIff(ms: seq<Message>, more: seq<Message>)
    requires MarksRight(ms) && Unmarked(more)
    requires !HasEmptyTurn(ms, BREAKPOINTS) && !HasEmptyTurn(ms + more, BREAKPOINTS)
    ensures MarksRight(Inject(ms + more, BREAKPOINTS).messages)
      <==> Turns(ms) == 0 || Turns(more) + Min(BREAKPOINTS, Turns(ms)) <= BREAKPOINTS + 1
  {
    InjectionSettlesIff(ms + more);
    if Turns(ms) == 0 || Turns(more) + Min(BREAKPOINTS, Turns(ms)) <= BREAKPOINTS + 1 {
      RecentAfter(ms, more);
    } else {
      NotRecentAfter(ms, more);
    }
  }

  /** Two new user turns after three or more leave an old mark that no later call removes. */
  lemma TwoNewTurnsLeaveAMark(ms: seq<Message>, more: seq<Message>)
    requires MarksRight(ms) && Unmarked(more) && Turns(ms) >= 3 && Turns(more) == 2
    requires !HasEmptyTurn(ms, BREAKPOINTS) && !HasEmptyTurn(ms + more, BREAKPOINTS)
    ensures !MarksRight(Inject(ms + more, BREAKPOINTS).messages)
  {
    NewTurnsIff(ms, more);
  }

  /** A call changes marks only. */
  lemma InjectKeepsTurns(ms: seq<Message>)
    requires !HasEmptyTurn(ms, BREAKPOINTS)
    ensures var out := Inject(ms, BREAKPOINTS).messages; !HasEmptyTurn(out, BREAKPOINTS) && Turns(out) == Turns(ms)
  {
    InjectEach(ms, BREAKPOINTS);
    var out := Inject(ms, BREAKPOINTS).messages;
    forall k | 0 <= k < |ms| ensures IsTurn(ms[k]) <==> IsTurn(out[k]) { assert out[k] == Remarked(ms, BREAKPOINTS, k); }
    SameTurns(ms, out);
    forall i: nat ensures !EmptyTurn(out, BREAKPOINTS, i) {
      if i < |ms| {
        assert out[i] == Remarked(ms, BREAKPOINTS, i) && !EmptyTurn(ms, BREAKPOINTS, i);
        SameRanks(ms, out, i);
      }
    }
  }

  /** One response and its tool results, answered by one new turn. */
  lemma OneMoreTurn(ms: seq<Message>, blocks: seq<Block>, results: seq<Block>)
    requires MarksRight(ms) && !HasEmptyTurn(ms, BREAKPOINTS) && results != []
    requires forall j :: 0 <= j < |blocks| ==> !blocks[j].cached
    requires forall j :: 0 <= j < |results| ==> !results[j].cached
    ensures var next := ms + [Message(Assistant, Blocks(blocks))] + [Message(User, Blocks(results))];
      MarksRecent(next) && !HasEmptyTurn(next, BREAKPOINTS)
  {
    var more := [Message(Assistant, Blocks(blocks)), Message(User, Blocks(results))];
    var next := ms + [Message(Assistant, Blocks(blocks))] + [Message(User, Blocks(results))];
    assert next == ms + more;
    assert Turns(more) == 1 by {
      assert |more| - 1 == 1 && more[..1] == [more[0]] && [more[0]][..0] == [];
      assert Turns([more[0]]) == 0;
    }
    RecentAfter(ms, more);
    forall i: nat ensures !EmptyTurn(ms + more, BREAKPOINTS, i) {
      if i < |ms| {
        assert !EmptyTurn(ms, BREAKPOINTS, i);
        RankAppend(ms, more, i);
      }
    }
  }
}
