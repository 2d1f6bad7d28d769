/** Python's string operations that the line editor uses, and how they act on lines. */
module Text {
  import opened Wrappers

  // ---------- lines ----------

  function Split(s: string): (lines: seq<string>)
    ensures |lines| > 0
  {
    if s == "" then [""]
    else
      var rest := Split(s[1..]);
      if s[0] == '\n' then [""] + rest else [[s[0]] + rest[0]] + rest[1..]
  }

  function Join(lines: seq<string>): string {
    if lines == [] then ""
    else if |lines| == 1 then lines[0]
    else lines[0] + "\n" + Join(lines[1..])
  }

  predicate OneLine(s: string) {
    '\n' !in s
  }

  lemma {:induction false} SplitLines(s: string)
    ensures forall k :: 0 <= k < |Split(s)| ==> OneLine(Split(s)[k])
  {
    if s != "" { SplitLines(s[1..]); }
  }

  lemma {:induction false} JoinSplit(s: string)
    ensures Join(Split(s)) == s
  {
    if s != "" {
      var rest := Split(s[1..]);
      JoinSplit(s[1..]);
      assert s == [s[0]] + s[1..];
      if s[0] != '\n' && |rest| > 1 {
        assert Split(s)[1..] == rest[1..];
        assert [s[0]] + (rest[0] + "\n" + Join(rest[1..])) == ([s[0]] + rest[0]) + "\n" + Join(rest[1..]);
      }
    }
  }

  lemma {:induction false} SplitOneLine(s: string)
    requires OneLine(s)
    ensures Split(s) == [s]
  {
    if s != "" {
      SplitOneLine(s[1..]);
      assert [s[0]] + s[1..] == s;
    }
  }

  /** The lines of two texts in a row: the last line of the first and the first line of the second
      become one. */
  function Glue(x: seq<string>, y: seq<string>): (lines: seq<string>)
    requires x != [] && y != []
    ensures |lines| == |x| + |y| - 1
  {
    x[..|x| - 1] + [x[|x| - 1] + y[0]] + y[1..]
  }

  lemma GlueLine(line: string, x: seq<string>, y: seq<string>)
    requires x != [] && y != []
    ensures Glue([line] + x, y) == [line] + Glue(x, y)
  {
    var n := |x| - 1;
    assert ([line] + x)[..n + 1] == [line] + x[..n];
  }

  lemma GlueChar(c: char, x: seq<string>, y: seq<string>)
    requires x != [] && y != []
    ensures Glue([[c] + x[0]] + x[1..], y) == [[c] + Glue(x, y)[0]] + Glue(x, y)[1..]
  {
    var z := [[c] + x[0]] + x[1..];
    var n := |x| - 1;
    if n == 0 {
      assert [c] + (x[0] + y[0]) == ([c] + x[0]) + y[0];
      assert Glue(x, y)[1..] == y[1..];
    } else {
      assert z[..n] == [z[0]] + x[1..n];
      assert Glue(x, y)[0] == x[0] && Glue(x, y)[1..] == x[1..n] + [x[n] + y[0]] + y[1..];
    }
  }

  lemma {:induction false} SplitConcat(a: string, b: string)
    ensures Split(a + b) == Glue(Split(a), Split(b))
  {
    var y := Split(b);
    if a == "" {
      assert a + b == b && "" + y[0] == y[0];
    } else {
      SplitConcat(a[1..], b);
      assert (a + b)[1..] == a[1..] + b;
      var rest := Split(a[1..]);
      GlueLine("", rest, y);
      GlueChar(a[0], rest, y);
    }
  }

  lemma SplitBreak(b: string)
    ensures Split("\n" + b) == [""] + Split(b)
  {
    assert ("\n" + b)[1..] == b;
  }

  lemma GlueBreak(x: seq<string>, y: seq<string>)
    requires x != []
    ensures Glue(x, [""] + y) == x + y
  {
    assert x[|x| - 1] + "" == x[|x| - 1];
    assert ([""] + y)[1..] == y;
  }

  lemma SplitAtBreak(a: string, b: string)
    ensures Split(a + "\n" + b) == Split(a) + Split(b)
  {
    SplitConcat(a, "\n" + b);
    SplitBreak(b);
    GlueBreak(Split(a), Split(b));
    assert a + "\n" + b == a + ("\n" + b);
  }

  lemma {:induction false} SplitJoin(lines: seq<string>)
    requires lines != [] && forall k :: 0 <= k < |lines| ==> OneLine(lines[k])
    ensures Split(Join(lines)) == lines
  {
    SplitOneLine(lines[0]);
    if |lines| > 1 {
      SplitJoin(lines[1..]);
      SplitAtBreak(lines[0], Join(lines[1..]));
      assert [lines[0]] + lines[1..] == lines;
    }
  }

  function Breaks(s: string): nat {
    |Split(s)| - 1
  }

  /** Cutting a text changes only the line that is cut. */
  lemma CutLines(s: string, n: nat, notice: string, k: nat)
    requires n <= |s| && k < Breaks(s[..n])
    ensures k < |Split(s)| && k < |Split(s[..n] + notice)|
    ensures Split(s[..n] + notice)[k] == Split(s)[k]
  {
    assert s[..n] + s[n..] == s;
    SplitConcat(s[..n], s[n..]);
    SplitConcat(s[..n], notice);
  }

  // ---------- tabs ----------

  const TAB: nat := 8

  predicate IsBreak(c: char) {
    c == '\n' || c == '\r'
  }

  function Spaces(n: nat): (s: string)
    ensures |s| == n && forall k :: 0 <= k < n ==> s[k] == ' '
  {
    seq(n, _ => ' ')
  }

  /** What a character becomes in column `col`, and the column after it. */
  function Piece(c: char, col: nat): string {
    if c == '\t' then Spaces(TAB - col % TAB) else [c]
  }

  function After(c: char, col: nat): nat {
    if c == '\t' then col + (TAB - col % TAB) else if IsBreak(c) then 0 else col + 1
  }

  /** `expandtabs` for text that starts in column `col`. */
  function Expand(s: string, col: nat): string {
    if s == "" then "" else Piece(s[0], col) + Expand(s[1..], After(s[0], col))
  }

  function ExpandTabs(s: string): string {
    Expand(s, 0)
  }

  predicate TabFree(s: string) {
    '\t' !in s
  }

  lemma {:induction false} ExpandIsTabFree(s: string, col: nat)
    ensures TabFree(Expand(s, col))
  {
    if s != "" {
      ExpandIsTabFree(s[1..], After(s[0], col));
    }
  }

  lemma {:induction false} ExpandTabFree(s: string, col: nat)
    requires TabFree(s)
    ensures Expand(s, col) == s
  {
    if s != "" {
      ExpandTabFree(s[1..], After(s[0], col));
      assert [s[0]] + s[1..] == s;
    }
  }

  function Column(s: string, col: nat): nat {
    if s == "" then col
    else Column(s[1..], After(s[0], col))
  }

  lemma {:induction false} ExpandConcat(a: string, b: string, col: nat)
    ensures Expand(a + b, col) == Expand(a, col) + Expand(b, Column(a, col))
  {
    if a == "" {
      assert a + b == b;
    } else {
      assert (a + b)[1..] == a[1..] + b;
      ExpandConcat(a[1..], b, After(a[0], col));
    }
  }

  lemma {:induction false} ExpandOneLine(s: string, col: nat)
    requires OneLine(s)
    ensures OneLine(Expand(s, col))
  {
    if s != "" {
      ExpandOneLine(s[1..], After(s[0], col));
    }
  }

  lemma ExpandFirst(c: char, rest: string, col: nat)
    ensures Expand([c] + rest, col) == Piece(c, col) + Expand(rest, After(c, col))
    ensures c != '\n' ==> OneLine(Piece(c, col))
  {
    assert ([c] + rest)[1..] == rest;
  }

  lemma SplitAfter(head: string, tail: string)
    requires OneLine(head)
    ensures Split(head + tail) == [head + Split(tail)[0]] + Split(tail)[1..]
  {
    SplitConcat(head, tail);
    SplitOneLine(head);
  }

  /** Each line of `y` is the line of `x` expanded from column 0, the first one from `col`. */
  ghost predicate LinesExpanded(x: seq<string>, y: seq<string>, col: nat) {
    && |x| == |y| > 0 && y[0] == Expand(x[0], col)
    && forall k :: 0 < k < |x| ==> y[k] == ExpandTabs(x[k])
  }

  lemma LongerLine(c: char, x: seq<string>, y: seq<string>, col: nat)
    requires c != '\n' && LinesExpanded(x, y, After(c, col))
    ensures LinesExpanded([[c] + x[0]] + x[1..], [Piece(c, col) + y[0]] + y[1..], col)
  {
    ExpandFirst(c, x[0], col);
    forall k | 0 < k < |x| ensures ([Piece(c, col) + y[0]] + y[1..])[k] == ExpandTabs(([[c] + x[0]] + x[1..])[k]) {
      assert y[k] == ExpandTabs(x[k]);
    }
  }

  lemma OneMoreLine(x: seq<string>, y: seq<string>, col: nat)
    requires LinesExpanded(x, y, 0)
    ensures LinesExpanded([""] + x, [""] + y, col)
  {
    forall k | 0 < k < |x| + 1 ensures ([""] + y)[k] == ExpandTabs(([""] + x)[k]) {
      assert y[k - 1] == ExpandTabs(x[k - 1]);
    }
  }

  /** Expanding a text expands each of its lines from column 0 (the first from `col`). */
  lemma {:induction false} ExpandLines(s: string, col: nat)
    ensures LinesExpanded(Split(s), Split(Expand(s, col)), col)
  {
    if s != "" {
      var c, rest := s[0], s[1..];
      var next := After(c, col);
      assert s == [c] + rest;
      ExpandFirst(c, rest, col);
      ExpandLines(rest, next);
      if c == '\n' {
        OneMoreLine(Split(rest), Split(Expand(rest, next)), col);
        assert ("\n" + Expand(rest, 0))[1..] == Expand(rest, 0);
      } else {
        SplitAfter(Piece(c, col), Expand(rest, next));
        LongerLine(c, Split(rest), Split(Expand(rest, next)), col);
      }
    }
  }

  lemma ExpandedLine(s: string, k: nat)
    requires k < |Split(s)|
    ensures |Split(ExpandTabs(s))| == |Split(s)| && Split(ExpandTabs(s))[k] == ExpandTabs(Split(s)[k])
  {
    ExpandLines(s, 0);
  }

  /** Is there a tab before the first line break? */
  predicate EarlyTab(s: string) {
    s != "" && (s[0] == '\t' || (!IsBreak(s[0]) && EarlyTab(s[1..])))
  }

  lemma TabFromColumn(rest: string, col: nat, at: nat)
    ensures Expand("\t" + rest, col) == Expand("\t" + rest, at) <==> col % TAB == at % TAB
  {
    var s := "\t" + rest;
    var one, two := TAB - col % TAB, TAB - at % TAB;
    assert s[1..] == rest;
    SameStop(rest, col + one, at + two);
    var tail := Expand(rest, col + one);
    assert Expand(s, col) == Spaces(one) + tail && Expand(s, at) == Spaces(two) + tail;
    if one == two {
      assert Spaces(one) == Spaces(two);
    } else {
      assert |Spaces(one) + tail| != |Spaces(two) + tail|;
    }
  }

  lemma PlainFromColumn(s: string, col: nat, at: nat)
    requires s != "" && s[0] != '\t' && !IsBreak(s[0])
    ensures Expand(s, col) == Expand(s, at) <==> Expand(s[1..], col + 1) == Expand(s[1..], at + 1)
  {
    assert Expand(s, col)[1..] == Expand(s[1..], col + 1) && Expand(s, at)[1..] == Expand(s[1..], at + 1);
  }

  lemma NextColumns(col: nat, at: nat)
    ensures (col + 1) % TAB == (at + 1) % TAB <==> col % TAB == at % TAB
  {
    OneRight(col);
    OneRight(at);
  }

  lemma OneRight(col: nat)
    ensures (col + 1) % TAB == if col % TAB == TAB - 1 then 0 else col % TAB + 1
  {
    var q, r := col / TAB, col % TAB;
    assert col == TAB * q + r;
    assert col + 1 == TAB * q + (r + 1) == TAB * (q + 1) + (r + 1 - TAB);
  }

  /** A text expands the same from another column if and only if that column is as far from its tab stop
      or no tab comes before the first line break. */
  lemma {:induction false} ExpandFromColumn(s: string, col: nat, at: nat)
    ensures Expand(s, col) == Expand(s, at) <==> col % TAB == at % TAB || !EarlyTab(s)
  {
    if s != "" {
      if s[0] == '\t' {
        assert s == "\t" + s[1..];
        TabFromColumn(s[1..], col, at);
      } else if !IsBreak(s[0]) {
        ExpandFromColumn(s[1..], col + 1, at + 1);
        PlainFromColumn(s, col, at);
        NextColumns(col, at);
      }
    }
  }

  lemma AtStop(col: nat)
    ensures (col + (TAB - col % TAB)) % TAB == 0
  {
  }

  lemma {:induction false} SameStop(s: string, col: nat, at: nat)
    requires col % TAB == at % TAB
    ensures Expand(s, col) == Expand(s, at)
  {
    if s != "" {
      if s[0] == '\t' {
        AtStop(col);
        AtStop(at);
        SameStop(s[1..], col + (TAB - col % TAB), at + (TAB - at % TAB));
      } else if !IsBreak(s[0]) {
        NextColumns(col, at);
        SameStop(s[1..], col + 1, at + 1);
      }
    }
  }

  // ---------- occurrences ----------

  predicate Occurs(s: string, sub: string, i: nat) {
    i + |sub| <= |s| && s[i..i + |sub|] == sub
  }

  function First(s: string, sub: string): (r: Option<nat>)
    ensures r.Some? ==> Occurs(s, sub, r.value) && forall i: nat :: i < r.value ==> !Occurs(s, sub, i)
    ensures r.None? ==> forall i: nat :: !Occurs(s, sub, i)
  {
    FirstFrom(s, sub, 0)
  }

  function FirstFrom(s: string, sub: string, from: nat): (r: Option<nat>)
    requires forall i: nat :: i < from ==> !Occurs(s, sub, i)
    ensures r.Some? ==> Occurs(s, sub, r.value) && forall i: nat :: i < r.value ==> !Occurs(s, sub, i)
    ensures r.None? ==> forall i: nat :: !Occurs(s, sub, i)
    decreases |s| - from
  {
    if from + |sub| > |s| then None
    else if Occurs(s, sub, from) then Some(from)
    else FirstFrom(s, sub, from + 1)
  }

  /** `count`: occurrences from left to right that do not overlap; the empty string occurs at every position. */
  function Count(s: string, sub: string): nat {
    if sub == "" then |s| + 1
    else
      var i := First(s, sub);
      if i.None? then 0 else 1 + Count(s[i.value + |sub|..], sub)
  }

  function Between(s: string, new': string): string {
    if s == "" then new' else new' + [s[0]] + Between(s[1..], new')
  }

  function Replace(s: string, sub: string, new': string): string {
    if sub == "" then Between(s, new')
    else
      var i := First(s, sub);
      if i.None? then s else s[..i.value] + new' + Replace(s[i.value + |sub|..], sub, new')
  }

  lemma OccursLater(s: string, sub: string, from: nat, at: nat)
    requires from <= |s|
    ensures Occurs(s[from..], sub, at) <==> Occurs(s, sub, from + at)
  {
    if from + at + |sub| <= |s| { assert s[from..][at..at + |sub|] == s[from + at..from + at + |sub|]; }
  }

  /** A nonempty text is counted once exactly when it occurs and every occurrence overlaps the first one. */
  lemma CountedOnceIff(s: string, sub: string)
    requires sub != ""
    ensures Count(s, sub) == 1 <==>
      var i := First(s, sub); i.Some? && forall k: nat :: Occurs(s, sub, k) ==> k < i.value + |sub|
  {
    var i := First(s, sub);
    if i.Some? {
      var from := i.value + |sub|;
      if First(s[from..], sub).Some? {
        OccursLater(s, sub, from, First(s[from..], sub).value);
      } else {
        forall k: nat | Occurs(s, sub, k) ensures k < from {
          if k >= from { OccursLater(s, sub, from, k - from); }
        }
      }
    }
  }

  /** Occurrences from left to right that do not overlap. */
  ghost predicate Apart(s: string, sub: string, at: seq<nat>) {
    && (forall i :: 0 <= i < |at| ==> Occurs(s, sub, at[i]))
    && (forall i :: 0 <= i < |at| - 1 ==> at[i] + |sub| <= at[i + 1])
  }

  lemma {:induction false} ApartFrom(at: seq<nat>, sub: string, i: nat)
    requires i < |at| && forall i :: 0 <= i < |at| - 1 ==> at[i] + |sub| <= at[i + 1]
    ensures at[0] <= at[i] && (i > 0 ==> at[0] + |sub| <= at[i])
  {
    if i > 0 { ApartFrom(at, sub, i - 1); }
  }

  function Shifted(at: seq<nat>, from: nat): (r: seq<nat>)
    requires forall i :: 0 <= i < |at| ==> from <= at[i]
    ensures |r| == |at| && forall i :: 0 <= i < |r| ==> r[i] == at[i] - from
  {
    seq(|at|, i requires 0 <= i < |at| => at[i] - from)
  }

  lemma ShiftApart(s: string, sub: string, at: seq<nat>, from: nat)
    requires Apart(s, sub, at) && from <= |s| && forall i :: 0 <= i < |at| ==> from <= at[i]
    ensures Apart(s[from..], sub, Shifted(at, from))
  {
    forall i | 0 <= i < |at| ensures Occurs(s[from..], sub, at[i] - from) { OccursLater(s, sub, from, at[i] - from); }
  }

  lemma RestApart(s: string, sub: string, at: seq<nat>, first: nat)
    requires Apart(s, sub, at) && at != [] && first <= at[0] && first + |sub| <= |s|
    ensures forall i :: 0 <= i < |at[1..]| ==> first + |sub| <= at[1..][i]
    ensures Apart(s[first + |sub|..], sub, Shifted(at[1..], first + |sub|))
  {
    forall i | 0 <= i < |at[1..]| ensures first + |sub| <= at[1..][i] { ApartFrom(at, sub, i + 1); }
    ShiftApart(s, sub, at[1..], first + |sub|);
  }

  /** The count is the largest number of occurrences that do not overlap: no choice has more... */
  lemma {:induction false} CountIsMost(s: string, sub: string, at: seq<nat>)
    requires sub != "" && Apart(s, sub, at)
    ensures |at| <= Count(s, sub)
    decreases |at|
  {
    if at != [] {
      assert Occurs(s, sub, at[0]);
      var first := First(s, sub).value;
      RestApart(s, sub, at, first);
      CountIsMost(s[first + |sub|..], sub, Shifted(at[1..], first + |sub|));
    }
  }

  lemma OneMoreApart(s: string, sub: string, first: nat, rest: seq<nat>) returns (at: seq<nat>)
    requires Occurs(s, sub, first) && Apart(s[first + |sub|..], sub, rest)
    ensures Apart(s, sub, at) && |at| == |rest| + 1
  {
    var from := first + |sub|;
    var later: seq<nat> := seq(|rest|, i requires 0 <= i < |rest| => from + rest[i]);
    forall i | 0 <= i < |later| ensures Occurs(s, sub, later[i]) { OccursLater(s, sub, from, rest[i]); }
    at := [first] + later;
  }

  /** ... and one has as many. */
  lemma {:induction false} CountIsReached(s: string, sub: string) returns (at: seq<nat>)
    requires sub != ""
    ensures Apart(s, sub, at) && |at| == Count(s, sub)
    decreases |s|
  {
    at := [];
    if First(s, sub).Some? {
      var first := First(s, sub).value;
      var rest := CountIsReached(s[first + |sub|..], sub);
      at := OneMoreApart(s, sub, first, rest);
    }
  }

  /** A text is counted zero times exactly if it occurs nowhere. */
  lemma CountedNeverIff(s: string, sub: string)
    ensures Count(s, sub) == 0 <==> forall i: nat :: !Occurs(s, sub, i)
  {
    assert sub == "" ==> Occurs(s, sub, 0);
  }

  lemma ReplacedOnce(s: string, sub: string, new': string)
    requires sub != "" && Count(s, sub) == 1
    ensures var i := First(s, sub).value;
      && s == s[..i] + sub + s[i + |sub|..]
      && Replace(s, sub, new') == s[..i] + new' + s[i + |sub|..]
  {
    var i := First(s, sub).value;
    var rest := s[i + |sub|..];
    assert First(rest, sub).None?;
  }

  /** `count` does not see an occurrence that overlaps the one it took. */
  lemma OverlapCountedOnce()
    ensures Count("aaa", "aa") == 1 && Occurs("aaa", "aa", 0) && Occurs("aaa", "aa", 1)
  {
    assert Occurs("aaa", "aa", 0) && Occurs("aaa", "aa", 1);
    assert First("aaa", "aa") == Some(0);
    assert "aaa"[2..] == "a";
    assert First("a", "aa").None?;
  }

  lemma ExpandThree(before: string, sub: string, after: string)
    ensures var col := Column(before, 0);
      ExpandTabs(before + sub + after) == ExpandTabs(before) + (Expand(sub, col) + Expand(after, Column(sub, col)))
  {
    var tail := sub + after;
    assert before + sub + after == before + tail;
    ExpandConcat(before, tail, 0);
    ExpandConcat(sub, after, Column(before, 0));
  }

  /** Text that occurs in a file is still found after both are expanded if it starts at a tab stop or has
      no tab before its first line break. */
  lemma ExpandedOccurrence(before: string, sub: string, after: string)
    requires Column(before, 0) % TAB == 0 || !EarlyTab(sub)
    ensures Occurs(ExpandTabs(before + sub + after), ExpandTabs(sub), |ExpandTabs(before)|)
  {
    var col := Column(before, 0);
    ExpandThree(before, sub, after);
    ExpandFromColumn(sub, col, 0);
    OccursBetween(ExpandTabs(before), ExpandTabs(sub), Expand(after, Column(sub, col)));
  }

  lemma OccursBetween(a: string, b: string, c: string)
    ensures Occurs(a + (b + c), b, |a|)
  {
  }

  predicate Blank(s: string) {
    forall i :: 0 <= i < |s| ==> s[i] == ' ' || s[i] == '\t'
  }

  /** Whether text that stands at column `col`, followed by `rest`, is still there when it is expanded as if it stood
      at column `at`: its first tab must be as wide there, or be followed by blanks only and need no more of them
      than there are. */
  predicate Survives(s: string, col: nat, at: nat, rest: string) {
    if s == "" || IsBreak(s[0]) then true
    else if s[0] != '\t' then Survives(s[1..], col + 1, at + 1, rest)
    else
      var there, here := TAB - at % TAB, TAB - col % TAB;
      there == here || (Blank(s[1..]) && (there < here || Spaces(there - here) <= rest))
  }

  predicate AllSpaces(s: string) {
    forall i :: 0 <= i < |s| ==> s[i] == ' '
  }

  lemma {:induction false} ExpandBlank(s: string, col: nat)
    ensures AllSpaces(Expand(s, col)) <==> Blank(s)
  {
    if s != "" {
      var piece, tail := Piece(s[0], col), Expand(s[1..], After(s[0], col));
      ExpandBlank(s[1..], After(s[0], col));
      assert Expand(s, col) == piece + tail;
      AllSpacesConcat(piece, tail);
      assert AllSpaces(piece) <==> s[0] == ' ' || s[0] == '\t' by { if s[0] != '\t' { assert piece[0] == s[0]; } }
      assert s == [s[0]] + s[1..];
      assert Blank(s) <==> (s[0] == ' ' || s[0] == '\t') && Blank(s[1..]) by {
        assert forall i :: 0 <= i < |s[1..]| ==> s[1..][i] == s[i + 1];
        assert forall i :: 1 <= i < |s| ==> s[i] == s[1..][i - 1];
      }
    }
  }

  lemma AllSpacesConcat(a: string, b: string)
    ensures AllSpaces(a + b) <==> AllSpaces(a) && AllSpaces(b)
  {
    assert forall i :: 0 <= i < |a| ==> (a + b)[i] == a[i];
    assert forall i :: 0 <= i < |b| ==> (a + b)[|a| + i] == b[i];
  }

  predicate SpaceOrEarlier(t: string, d: nat, k: nat) {
    k < |t| ==> t[k] == if k < d then ' ' else t[k - d]
  }

  /** A text that agrees with itself moved right behind spaces is all spaces. */
  lemma {:induction false} ShiftedSpaces(t: string, d: nat, i: nat)
    requires d > 0 && i < |t|
    requires forall k: nat :: SpaceOrEarlier(t, d, k)
    ensures t[i] == ' '
  {
    assert SpaceOrEarlier(t, d, i);
    if i >= d { ShiftedSpaces(t, d, i - d); }
  }

  lemma WiderHere(t: string, d: nat, rest: string)
    requires d > 0
    ensures t <= Spaces(d) + t + rest <==> AllSpaces(t)
  {
    var all := Spaces(d) + t + rest;
    assert forall k :: 0 <= k < d + |t| ==> all[k] == if k < d then ' ' else t[k - d];
    if t <= all {
      forall k: nat ensures SpaceOrEarlier(t, d, k) { if k < |t| { assert t[k] == all[k]; } }
      forall i | 0 <= i < |t| ensures t[i] == ' ' { ShiftedSpaces(t, d, i); }
    }
    if AllSpaces(t) {
      assert all[..|t|] == t;
    }
  }

  lemma WiderThere(t: string, d: nat, rest: string)
    requires d > 0
    ensures Spaces(d) + t <= t + rest <==> AllSpaces(t) && Spaces(d) <= rest
  {
    var sub, all := Spaces(d) + t, t + rest;
    assert forall k :: 0 <= k < |sub| ==> sub[k] == if k < d then ' ' else t[k - d];
    if sub <= all {
      forall k: nat ensures SpaceOrEarlier(t, d, k) { if k < |t| { assert t[k] == all[k] == sub[k]; } }
      forall i | 0 <= i < |t| ensures t[i] == ' ' { ShiftedSpaces(t, d, i); }
      forall j | 0 <= j < d ensures rest[j] == ' ' { assert rest[j] == all[|t| + j] == sub[|t| + j]; }
      assert rest[..d] == Spaces(d);
    }
    if AllSpaces(t) && Spaces(d) <= rest {
      assert forall j :: 0 <= j < d ==> rest[j] == Spaces(d)[j];
      assert all[..|sub|] == sub;
    }
  }

  lemma ShiftedTab(t: string, there: nat, here: nat, rest: string)
    ensures Spaces(there) + t <= Spaces(here) + t + rest
      <==> there == here || (AllSpaces(t) && (there < here || Spaces(there - here) <= rest))
  {
    if there == here {
      assert Spaces(there) == Spaces(here);
      assert (Spaces(here) + t + rest)[..here + |t|] == Spaces(there) + t;
    } else if there < here {
      var d := here - there;
      assert Spaces(here) == Spaces(there) + Spaces(d);
      SamePrefix(Spaces(there), t, Spaces(d) + t + rest);
      assert Spaces(here) + t + rest == Spaces(there) + (Spaces(d) + t + rest);
      WiderHere(t, d, rest);
    } else {
      var d := there - here;
      assert Spaces(there) == Spaces(here) + Spaces(d);
      SamePrefix(Spaces(here), Spaces(d) + t, t + rest);
      assert Spaces(there) + t == Spaces(here) + (Spaces(d) + t);
      assert Spaces(here) + t + rest == Spaces(here) + (t + rest);
      WiderThere(t, d, rest);
    }
  }

  lemma SamePrefix(p: string, a: string, b: string)
    ensures p + a <= p + b <==> a <= b
  {
    if a <= b { assert (p + b)[..|p + a|] == p + a; }
    if p + a <= p + b {
      assert forall i :: 0 <= i < |a| ==> a[i] == (p + a)[|p| + i] == (p + b)[|p| + i] == b[i];
    }
  }

  lemma {:induction false} SurvivesIff(s: string, col: nat, at: nat, rest: string)
    ensures Expand(s, at) <= Expand(s, col) + rest <==> Survives(s, col, at, rest)
  {
    if s != "" {
      var a, b := Expand(s[1..], After(s[0], at)), Expand(s[1..], After(s[0], col));
      if s[0] == '\t' {
        AtStop(col);
        AtStop(at);
        SameStop(s[1..], After('\t', col), After('\t', at));
        ExpandBlank(s[1..], After('\t', at));
        ShiftedTab(a, TAB - at % TAB, TAB - col % TAB, rest);
      } else {
        SamePrefix([s[0]], a, b + rest);
        assert Expand(s, col) + rest == [s[0]] + (b + rest);
        if IsBreak(s[0]) { assert a <= b + rest; } else { SurvivesIff(s[1..], col + 1, at + 1, rest); }
      }
    }
  }

  /** Exactly when text that occurs in a file is still found at its place after both are expanded. */
  lemma ExpandedOccurrenceIff(before: string, sub: string, after: string)
    ensures var col := Column(before, 0);
      Occurs(ExpandTabs(before + sub + after), ExpandTabs(sub), |ExpandTabs(before)|)
      <==> Survives(sub, col, 0, Expand(after, Column(sub, col)))
  {
    var col := Column(before, 0);
    var rest := Expand(after, Column(sub, col));
    var tail := Expand(sub, col) + rest;
    ExpandThree(before, sub, after);
    OccursAfter(ExpandTabs(before), tail, ExpandTabs(sub));
    SurvivesIff(sub, col, 0, rest);
  }

  lemma OccursAfter(a: string, b: string, sub: string)
    ensures Occurs(a + b, sub, |a|) <==> sub <= b
  {
    if |sub| <= |b| { assert (a + b)[|a|..|a| + |sub|] == b[..|sub|]; }
  }

  /** An occurrence that is lost. */
  lemma ExpandedOccurrenceLost()
    ensures Occurs("a\tc", "\tc", 1) && First(ExpandTabs("a\tc"), ExpandTabs("\tc")).None?
  {
    assert Occurs("a\tc", "\tc", 1);
    assert "a\tc"[1..] == "\tc" && "\tc"[1..] == "c" && "c"[1..] == "";
    assert Expand("c", 8) == "c";
    assert Expand("\tc", 1) == Spaces(7) + "c";
    assert Expand("a\tc", 0) == "a" + Expand("\tc", 1);
    assert Expand("\tc", 0) == Spaces(8) + "c";
    assert |ExpandTabs("a\tc")| == 9 && |ExpandTabs("\tc")| == 9;
    assert ExpandTabs("a\tc")[0] == 'a' && ExpandTabs("\tc")[0] == ' ';
    forall i: nat ensures !Occurs(ExpandTabs("a\tc"), ExpandTabs("\tc"), i) {
      if i == 0 { assert ExpandTabs("a\tc")[0..9][0] == 'a'; }
    }
  }

  // ---------- files ----------

  /** What reading a text file makes of its line ends. */
  function ReadText(s: string): string {
    if s == "" then ""
    else if s[0] != '\r' then [s[0]] + ReadText(s[1..])
    else if |s| > 1 && s[1] == '\n' then "\n" + ReadText(s[2..])
    else "\n" + ReadText(s[1..])
  }

  /** A text read back is what was written if and only if it holds no carriage return. */
  lemma {:induction false} ReadBackIff(s: string)
    ensures ReadText(s) == s <==> '\r' !in s
    ensures '\r' !in ReadText(s)
  {
    if s != "" {
      if s[0] != '\r' {
        ReadBackIff(s[1..]);
        assert s == [s[0]] + s[1..];
        assert ReadText(s)[1..] == ReadText(s[1..]);
      } else if |s| > 1 && s[1] == '\n' {
        ReadBackIff(s[2..]);
        assert ReadText(s)[0] == '\n';
      } else {
        ReadBackIff(s[1..]);
        assert ReadText(s)[0] == '\n';
      }
    }
  }
}
