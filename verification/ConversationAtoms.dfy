/** A conversation read as one list can be told back from it: nothing of a message is left out. */
module ConversationAtoms {
  import opened Conversation

  /** The first atom starts a piece, and no other one does. */
  ghost predicate OnePiece(starts: Atom -> bool, atoms: seq<Atom>) {
    atoms != [] && starts(atoms[0]) && forall i :: 0 < i < |atoms| ==> !starts(atoms[i])
  }

  lemma PieceWithin(x: seq<Atom>, p: seq<Atom>, y: seq<Atom>, q: seq<Atom>)
    requires p != [] && |p| < |q| && x + p == y + q
    ensures q[|q| - |p|] == p[0]
  {
    assert (x + p)[|x|] == p[0] && (y + q)[|x|] == q[|q| - |p|];
  }

  lemma LastPieceFits(starts: Atom -> bool, x: seq<Atom>, p: seq<Atom>, y: seq<Atom>, q: seq<Atom>)
    requires OnePiece(starts, p) && OnePiece(starts, q) && x + p == y + q
    ensures |q| <= |p|
  {
    if |p| < |q| { PieceWithin(x, p, y, q); }
  }

  lemma SameCut(starts: Atom -> bool, x: seq<Atom>, p: seq<Atom>, y: seq<Atom>, q: seq<Atom>)
    requires OnePiece(starts, p) && OnePiece(starts, q) && x + p == y + q
    ensures x == y && p == q
  {
    LastPieceFits(starts, x, p, y, q);
    LastPieceFits(starts, y, q, x, p);
    assert x == (x + p)[..|x|] && y == (y + q)[..|x|];
    assert p == (x + p)[|x|..] && q == (y + q)[|x|..];
  }

  // ---------- parts ----------

  lemma {:induction false} PartAtomsAt(parts: seq<Part>)
    ensures |PartAtoms(parts)| == |parts| && forall i :: 0 <= i < |parts| ==> PartAtoms(parts)[i] == PartAtom(parts[i])
  {
    if parts != [] { PartAtomsAt(parts[..|parts| - 1]); }
  }

  lemma PartsTold(a: seq<Part>, b: seq<Part>)
    requires PartAtoms(a) == PartAtoms(b)
    ensures a == b
  {
    PartAtomsAt(a);
    PartAtomsAt(b);
    forall i | 0 <= i < |a| ensures a[i] == b[i] { assert PartAtom(a[i]) == PartAtom(b[i]); }
  }

  lemma PartsAreNoText(parts: seq<Part>, atom: Atom)
    requires atom.ResultText? || atom.NoContent?
    ensures PartAtoms(parts) != [atom]
  {
    PartAtomsAt(parts);
    if |parts| == 1 { assert PartAtoms(parts)[0] == PartAtom(parts[0]); }
  }

  lemma ContentTold(c: ResultContent, d: ResultContent)
    requires ContentAtoms(c) == ContentAtoms(d)
    ensures c == d
  {
    hide PartAtoms;
    if c.Parts? {
      if d.Parts? { PartsTold(c.parts, d.parts); } else { PartsAreNoText(c.parts, ContentAtoms(d)[0]); }
    } else if d.Parts? {
      PartsAreNoText(d.parts, ContentAtoms(c)[0]);
    } else {
      assert ContentAtoms(c)[0] == ContentAtoms(d)[0];
    }
  }

  // ---------- blocks ----------

  predicate StartsBlock(a: Atom) {
    a.OpenResult? || a.Plain?
  }

  predicate StartsMessage(a: Atom) {
    a.Open?
  }

  lemma BlockPiece(b: Block)
    ensures OnePiece(StartsBlock, BlockAtoms(b))
    ensures forall i :: 0 <= i < |BlockAtoms(b)| ==> !StartsMessage(BlockAtoms(b)[i])
  {
    if b.ToolResult? && b.content.Parts? { PartAtomsAt(b.content.parts); }
  }

  lemma BlockTold(a: Block, b: Block)
    requires BlockAtoms(a) == BlockAtoms(b)
    ensures a == b
  {
    var x, y := BlockAtoms(a), BlockAtoms(b);
    assert x[0] == y[0];
    if a.ToolResult? {
      assert x[1..|x| - 1] == ContentAtoms(a.content) && y[1..|y| - 1] == ContentAtoms(b.content);
      ContentTold(a.content, b.content);
    }
  }

  lemma BlocksLast(blocks: seq<Block>)
    requires blocks != []
    ensures BlocksAtoms(blocks) == BlocksAtoms(blocks[..|blocks| - 1]) + BlockAtoms(blocks[|blocks| - 1])
  {
  }

  lemma SameFromParts<T>(a: seq<T>, b: seq<T>)
    requires a != [] && b != [] && a[..|a| - 1] == b[..|b| - 1] && a[|a| - 1] == b[|b| - 1]
    ensures a == b
  {
    assert a == a[..|a| - 1] + [a[|a| - 1]] && b == b[..|b| - 1] + [b[|b| - 1]];
  }

  lemma {:induction false} BlocksTold(a: seq<Block>, b: seq<Block>)
    requires BlocksAtoms(a) == BlocksAtoms(b)
    ensures a == b
  {
    hide BlocksAtoms, BlockAtoms, OnePiece;
    if a != [] && b != [] {
      var m, n := |a| - 1, |b| - 1;
      BlockPiece(a[m]);
      BlockPiece(b[n]);
      BlocksLast(a);
      BlocksLast(b);
      SameCut(StartsBlock, BlocksAtoms(a[..m]), BlockAtoms(a[m]), BlocksAtoms(b[..n]), BlockAtoms(b[n]));
      BlockTold(a[m], b[n]);
      BlocksTold(a[..m], b[..n]);
      SameFromParts(a, b);
    } else {
      NoBlocks(a);
      NoBlocks(b);
    }
  }

  lemma NoBlocks(blocks: seq<Block>)
    ensures BlocksAtoms(blocks) == [] <==> blocks == []
  {
    if blocks != [] { BlockPiece(blocks[|blocks| - 1]); }
  }

  // ---------- messages ----------

  lemma {:induction false} BlocksInside(blocks: seq<Block>)
    ensures forall i :: 0 <= i < |BlocksAtoms(blocks)| ==> !StartsMessage(BlocksAtoms(blocks)[i]) && !BlocksAtoms(blocks)[i].Says?
  {
    if blocks != [] {
      BlocksInside(blocks[..|blocks| - 1]);
      SaysNothing(blocks[|blocks| - 1]);
      BlockPiece(blocks[|blocks| - 1]);
    }
  }

  lemma SaysNothing(b: Block)
    ensures forall i :: 0 <= i < |BlockAtoms(b)| ==> !BlockAtoms(b)[i].Says?
  {
    if b.ToolResult? && b.content.Parts? { PartAtomsAt(b.content.parts); }
  }

  lemma BlocksSayNothing(blocks: seq<Block>, words: string)
    ensures BlocksAtoms(blocks) != [Says(words)]
  {
    BlocksInside(blocks);
    if |BlocksAtoms(blocks)| == 1 { assert !BlocksAtoms(blocks)[0].Says?; }
  }

  lemma MessagePiece(m: Message)
    ensures OnePiece(StartsMessage, MessageAtoms(m))
  {
    if m.content.Blocks? { BlocksInside(m.content.blocks); }
  }

  lemma MessageTold(a: Message, b: Message)
    requires MessageAtoms(a) == MessageAtoms(b)
    ensures a == b
  {
    var x, y := MessageAtoms(a), MessageAtoms(b);
    assert x[0] == y[0];
    var inA := if a.content.Blocks? then BlocksAtoms(a.content.blocks) else [Says(a.content.words)];
    var inB := if b.content.Blocks? then BlocksAtoms(b.content.blocks) else [Says(b.content.words)];
    assert x[1..|x| - 1] == inA && y[1..|y| - 1] == inB;
    if a.content.Blocks? {
      if b.content.Blocks? {
        BlocksTold(a.content.blocks, b.content.blocks);
      } else {
        BlocksSayNothing(a.content.blocks, b.content.words);
      }
    } else if b.content.Blocks? {
      BlocksSayNothing(b.content.blocks, a.content.words);
    } else {
      assert inA[0] == inB[0];
    }
  }

  /** Two conversations with the same atoms are the same: what truncation is shown to do to the atoms, it does to
      the conversation. */
  lemma {:induction false} AtomsTellAll(a: seq<Message>, b: seq<Message>)
    requires Atoms(a) == Atoms(b)
    ensures a == b
  {
    if a != [] && b != [] {
      hide MessageAtoms, OnePiece;
      var m, n := |a| - 1, |b| - 1;
      MessagePiece(a[m]);
      MessagePiece(b[n]);
      SameCut(StartsMessage, Atoms(a[..m]), MessageAtoms(a[m]), Atoms(b[..n]), MessageAtoms(b[n]));
      MessageTold(a[m], b[n]);
      AtomsTellAll(a[..m], b[..n]);
      SameFromParts(a, b);
    }
  }
}
