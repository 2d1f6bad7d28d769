/** What expanding tabs, replacing and reading do to a text, told without columns, searches and recursion. */
module TextMeaning {
  import opened Text

  // ---------- expandtabs ----------

  predicate NoBreaks(s: string) {
    '\n' !in s && '\r' !in s
  }

  /** The end of a text is the start of a line. */
  predicate AtLineStart(s: string) {
    s == "" || s[|s| - 1] == '\n' || s[|s| - 1] == '\r'
  }

  lemma {:induction false} ColumnConcat(a: string, b: string, col: nat)
    ensures Column(a + b, col) == Column(b, Column(a, col))
  {
    if a == "" {
      assert a + b == b;
    } else {
      assert (a + b)[1..] == a[1..] + b;
      ColumnConcat(a[1..], b, After(a[0], col));
    }
  }

  lemma OneColumn(c: char, col: nat)
    ensures Column([c], col) == After(c, col) && Expand([c], col) == Piece(c, col)
  {
    assert [c][1..] == "";
    assert Piece(c, col) + "" == Piece(c, col);
  }

  lemma {:induction false} ColumnInLine(line: string, col: nat)
    requires NoBreaks(line)
    ensures Column(line, col) == col + |Expand(line, col)|
  {
    if line != "" { ColumnInLine(line[1..], After(line[0], col)); }
  }

  lemma StartColumn(before: string)
    requires AtLineStart(before)
    ensures Column(before, 0) == 0
  {
    if before != "" {
      var n := |before| - 1;
      assert before == before[..n] + [before[n]];
      ColumnConcat(before[..n], [before[n]], 0);
      OneColumn(before[n], Column(before[..n], 0));
    }
  }

  /** A tab becomes the blanks up to the next multiple of eight columns, counted from the start of its line in the
      expanded text; any other character stays. */
  lemma TabFillsToStop(before: string, line: string)
    requires AtLineStart(before) && NoBreaks(line)
    ensures ExpandTabs(before + line + "\t") ==
      ExpandTabs(before) + ExpandTabs(line) + Spaces(8 - |ExpandTabs(line)| % 8)
    ensures forall c :: c != '\t' ==> ExpandTabs(before + line + [c]) == ExpandTabs(before) + ExpandTabs(line) + [c]
  {
    StartColumn(before);
    ColumnInLine(line, 0);
    ExpandConcat(before, line, 0);
    ColumnConcat(before, line, 0);
    forall c: char ensures ExpandTabs(before + line + [c]) ==
      ExpandTabs(before) + ExpandTabs(line) + Piece(c, |ExpandTabs(line)|)
    {
      ExpandConcat(before + line, [c], 0);
      OneColumn(c, |ExpandTabs(line)|);
    }
    assert Piece('\t', |ExpandTabs(line)|) == Spaces(8 - |ExpandTabs(line)| % 8);
  }

  // ---------- replace ----------

  /** The pieces with a text between any two of them. */
  function Strung(pieces: seq<string>, between: string): string {
    if pieces == [] then ""
    else if |pieces| == 1 then pieces[0]
    else pieces[0] + between + Strung(pieces[1..], between)
  }

  lemma StrungHead(piece: string, pieces: seq<string>, between: string)
    requires pieces != []
    ensures Strung([piece] + pieces, between) == piece + between + Strung(pieces, between)
  {
    assert ([piece] + pieces)[1..] == pieces;
  }

  lemma {:induction false} CharPieces(s: string, new': string) returns (pieces: seq<string>)
    ensures |pieces| == |s| + 2 && pieces[0] == ""
    ensures Strung(pieces, "") == s && Strung(pieces, new') == Between(s, new')
  {
    if s == "" {
      pieces := [""] + [""];
      StrungHead("", [""], "");
      StrungHead("", [""], new');
    } else {
      hide Strung;
      var rest := CharPieces(s[1..], new');
      assert rest == [""] + rest[1..];
      StrungHead("", rest[1..], "");
      StrungHead("", rest[1..], new');
      StrungHead([s[0]], rest[1..], "");
      StrungHead([s[0]], rest[1..], new');
      StrungHead("", [[s[0]]] + rest[1..], "");
      StrungHead("", [[s[0]]] + rest[1..], new');
      pieces := [""] + ([[s[0]]] + rest[1..]);
    }
  }

  lemma NoneBefore(s: string, sub: string)
    requires sub != "" && First(s, sub).Some?
    ensures forall j: nat :: !Occurs(s[..First(s, sub).value], sub, j)
  {
    var i := First(s, sub).value;
    forall j: nat ensures !Occurs(s[..i], sub, j) {
      if j + |sub| <= i { assert !Occurs(s, sub, j) && s[..i][j..j + |sub|] == s[j..j + |sub|]; }
    }
  }

  /** Replacing puts the new text for the old one between the same pieces, as many as are counted and one more;
      the pieces do not hold the old text. */
  lemma {:induction false} ReplacedEverywhere(s: string, sub: string, new': string) returns (pieces: seq<string>)
    ensures |pieces| == Count(s, sub) + 1
    ensures Strung(pieces, sub) == s && Strung(pieces, new') == Replace(s, sub, new')
    ensures sub != "" ==> forall k, j: nat :: 0 <= k < |pieces| ==> !Occurs(pieces[k], sub, j)
    decreases |s|
  {
    if sub == "" {
      pieces := CharPieces(s, new');
    } else if First(s, sub).None? {
      pieces := [s];
    } else {
      var i := First(s, sub).value;
      var rest := ReplacedEverywhere(s[i + |sub|..], sub, new');
      NoneBefore(s, sub);
      StrungHead(s[..i], rest, sub);
      StrungHead(s[..i], rest, new');
      assert s == s[..i] + sub + s[i + |sub|..];
      pieces := [s[..i]] + rest;
    }
  }

  // ---------- line ends ----------

  predicate IsLineEnd(end: string) {
    end == "\n" || end == "\r" || end == "\r\n"
  }

  /** Lines with the given ends; the last one has none. */
  function Ended(lines: seq<string>, ends: seq<string>): string
    requires |lines| == |ends| + 1
  {
    if ends == [] then lines[0] else lines[0] + ends[0] + Ended(lines[1..], ends[1..])
  }

  /** A CR, an empty line and an LF are not told from the one end CR LF. */
  predicate Ambiguous(lines: seq<string>, ends: seq<string>, k: nat) {
    k + 1 < |ends| && k + 1 < |lines| && ends[k] == "\r" && lines[k + 1] == "" && ends[k + 1] == "\n"
  }

  ghost predicate Written(lines: seq<string>, ends: seq<string>) {
    && |lines| == |ends| + 1
    && (forall k :: 0 <= k < |lines| ==> NoBreaks(lines[k]))
    && (forall k :: 0 <= k < |ends| ==> IsLineEnd(ends[k]))
    && forall k: nat :: !Ambiguous(lines, ends, k)
  }

  lemma {:induction false} ReadLine(line: string, rest: string)
    requires NoBreaks(line)
    ensures ReadText(line + rest) == line + ReadText(rest)
  {
    if line == "" {
      assert line + rest == rest;
    } else {
      ReadLine(line[1..], rest);
      assert (line + rest)[1..] == line[1..] + rest;
    }
  }

  lemma ReadEnd(end: string, rest: string)
    requires IsLineEnd(end) && (end == "\r" ==> rest == "" || rest[0] != '\n')
    ensures ReadText(end + rest) == "\n" + ReadText(rest)
  {
    assert (end + rest)[|end|..] == rest;
  }

  lemma RestWritten(lines: seq<string>, ends: seq<string>)
    requires Written(lines, ends) && ends != []
    ensures Written(lines[1..], ends[1..])
    ensures ends[0] == "\r" ==> var rest := Ended(lines[1..], ends[1..]); rest == "" || rest[0] != '\n'
  {
    forall k: nat ensures !Ambiguous(lines[1..], ends[1..], k) { assert !Ambiguous(lines, ends, k + 1); }
    assert !Ambiguous(lines, ends, 0);
    assert NoBreaks(lines[1]);
    if |ends| > 1 { assert IsLineEnd(ends[1]); }
  }

  /** Reading gives the lines, whatever each of them ended in, with line feeds between them. */
  lemma {:induction false} ReadLines(lines: seq<string>, ends: seq<string>)
    requires Written(lines, ends)
    ensures ReadText(Ended(lines, ends)) == Join(lines)
  {
    if ends == [] {
      ReadLine(lines[0], "");
      assert lines[0] + "" == lines[0] && lines[0] + ReadText("") == lines[0];
    } else {
      var rest := Ended(lines[1..], ends[1..]);
      RestWritten(lines, ends);
      ReadLines(lines[1..], ends[1..]);
      ReadEnd(ends[0], rest);
      assert Ended(lines, ends) == lines[0] + (ends[0] + rest);
      ReadLine(lines[0], ends[0] + rest);
    }
  }
}
