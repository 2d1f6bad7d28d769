/** The line editor over a file system of text files and directories. */
module Editor {
  import opened Text
  import opened Wrappers
  import Json

  const SNIPPET_LINES: nat := 4
  const MAX_RESPONSE_LEN: nat := 16000
  const TRUNCATED_MESSAGE: string :=
    "<response clipped><NOTE>To save on context only part of this file has been shown to you. You should retry this tool after you have searched inside the file with `grep -n` in order to find the line numbers of what you are looking for.</NOTE>"

  datatype Entry = File(text: string) | Directory

  datatype EditError =
    | NotAbsolute
    | DoesNotExist
    | AlreadyExists
    | IsDirectory
    | RangeOnDirectory
    | BadRange
    | BadFirst
    | LastTooLarge
    | LastBeforeFirst
    | NotFound
    | Multiple(lines: seq<nat>)
    | BadInsertLine

  /** `Crash` is the ValueError of splitting on an empty separator. */
  datatype Outcome = Output(text: string) | Listing | ToolError(error: EditError) | Crash

  // ---------- output ----------

  function MaybeTruncate(s: string): string {
    if |s| <= MAX_RESPONSE_LEN then s else s[..MAX_RESPONSE_LEN] + TRUNCATED_MESSAGE
  }

  function Width6(n: nat): string {
    var digits := Json.Decimal(n);
    (if |digits| < 6 then Spaces(6 - |digits|) else "") + digits
  }

  function Row(n: nat, line: string): string {
    Width6(n) + "\t" + line
  }

  /** A row says which line it is and what the line holds. */
  lemma RowTellsLine(n: nat, a: string, m: nat, b: string)
    requires Row(n, a) == Row(m, b)
    ensures n == m && a == b
  {
    NoTab(n);
    NoTab(m);
    var i, j := |Width6(n)|, |Width6(m)|;
    assert Row(n, a)[i] == '\t' && Row(m, b)[j] == '\t';
    assert Row(n, a)[..i] == Width6(n) && Row(m, b)[..j] == Width6(m);
    assert Row(n, a)[i + 1..] == a && Row(m, b)[j + 1..] == b;
    assert forall k :: 0 <= k < j ==> Row(m, b)[k] == Width6(m)[k] != '\t';
    assert forall k :: 0 <= k < i ==> Row(n, a)[k] == Width6(n)[k] != '\t';
    assert i == j;
    Digits6(n);
    Digits6(m);
  }

  lemma NoTab(n: nat)
    ensures forall k :: 0 <= k < |Width6(n)| ==> Width6(n)[k] != '\t'
  {
  }

  function Stripped(s: string): string {
    if s != "" && s[0] == ' ' then Stripped(s[1..]) else s
  }

  lemma {:induction false} StripSpaces(n: nat, s: string)
    requires s == "" || s[0] != ' '
    ensures Stripped(Spaces(n) + s) == s
  {
    if n > 0 {
      StripSpaces(n - 1, s);
      assert (Spaces(n) + s)[1..] == Spaces(n - 1) + s;
    } else {
      assert Spaces(n) + s == s;
    }
  }

  lemma Digits6(n: nat)
    ensures Json.Digits(Stripped(Width6(n))) && Json.ParseDecimal(Stripped(Width6(n))) == n
  {
    var digits := Json.Decimal(n);
    assert Json.Digits(digits) && digits[0] != ' ';
    if |digits| < 6 {
      StripSpaces(6 - |digits|, digits);
    } else {
      assert "" + digits == digits;
    }
    assert Stripped(Width6(n)) == digits;
    Json.DecimalRoundTrip(n);
  }

  function Number(lines: seq<string>, first: nat): seq<string> {
    seq(|lines|, k requires 0 <= k < |lines| => Row(first + k, lines[k]))
  }

  function Header(descriptor: string): string {
    "Here's the result of running `cat -n` on " + descriptor + ":\n"
  }

  /** `_make_output` with tab expansion. */
  function MakeOutput(content: string, descriptor: string, first: nat): string {
    Header(descriptor) + Join(Number(Split(ExpandTabs(MaybeTruncate(content))), first)) + "\n"
  }

  /** How many rows come before the place where a snippet is cut: all of them if it is not. */
  function WholeRows(snippet: string): nat {
    if |snippet| <= MAX_RESPONSE_LEN then |Split(snippet)| else Breaks(snippet[..MAX_RESPONSE_LEN])
  }

  /** `rows` are what an output shows: up to the cut, each row is the line of `lines` that it is numbered as. */
  ghost predicate RowsOf(rows: seq<string>, lines: seq<string>, first: nat, count: nat, whole: nat) {
    && first >= 1 && whole <= |rows| && first - 1 + whole <= |lines|
    && (whole == count ==> |rows| == count)
    && forall k :: 0 <= k < whole ==> rows[k] == Row(first + k, lines[first - 1 + k])
  }

  ghost predicate Shows(text: string, descriptor: string, lines: seq<string>, first: nat, count: nat, whole: nat) {
    exists rows: seq<string> ::
      RowsOf(rows, lines, first, count, whole) && text == Header(descriptor) + Join(rows) + "\n"
  }

  lemma UncutLine(snippet: string, k: nat)
    requires k < WholeRows(snippet)
    ensures k < |Split(MaybeTruncate(snippet))| && k < |Split(snippet)|
    ensures Split(MaybeTruncate(snippet))[k] == Split(snippet)[k]
  {
    if |snippet| > MAX_RESPONSE_LEN { CutLines(snippet, MAX_RESPONSE_LEN, TRUNCATED_MESSAGE, k); }
  }

  lemma WholeIsShort(snippet: string)
    ensures WholeRows(snippet) <= |Split(snippet)|
    ensures WholeRows(snippet) <= |Split(ExpandTabs(MaybeTruncate(snippet)))|
  {
    if WholeRows(snippet) > 0 { UncutLine(snippet, WholeRows(snippet) - 1); }
    ExpandLines(MaybeTruncate(snippet), 0);
  }

  lemma WholeRow(snippet: string, k: nat)
    requires k < WholeRows(snippet)
    ensures k < |Split(ExpandTabs(MaybeTruncate(snippet)))| && k < |Split(snippet)|
    ensures Split(ExpandTabs(MaybeTruncate(snippet)))[k] == ExpandTabs(Split(snippet)[k])
  {
    UncutLine(snippet, k);
    ExpandedLine(MaybeTruncate(snippet), k);
  }

  predicate OneLines(lines: seq<string>) {
    forall k :: 0 <= k < |lines| ==> OneLine(lines[k])
  }

  /** A snippet made of consecutive lines shows the expanded lines under their own numbers. */
  lemma SnippetShows(lines: seq<string>, expanded: seq<string>, a: nat, b: nat, descriptor: string)
    requires a < b <= |lines| && OneLines(lines) && |expanded| == |lines|
    requires forall k :: 0 <= k < |lines| ==> expanded[k] == ExpandTabs(lines[k])
    ensures var snippet := Join(lines[a..b]);
      && Shows(MakeOutput(snippet, descriptor, a + 1), descriptor, expanded, a + 1, b - a, WholeRows(snippet))
      && (|snippet| <= MAX_RESPONSE_LEN ==> WholeRows(snippet) == b - a)
  {
    var snippet := Join(lines[a..b]);
    SplitJoin(lines[a..b]);
    var shown := Split(ExpandTabs(MaybeTruncate(snippet)));
    var rows := Number(shown, a + 1);
    WholeIsShort(snippet);
    forall k | 0 <= k < WholeRows(snippet) ensures rows[k] == Row(a + 1 + k, expanded[a + k]) {
      WholeRow(snippet, k);
      assert lines[a..b][k] == lines[a + k];
    }
    if WholeRows(snippet) == b - a {
      FullIsUncut(snippet);
      ExpandLines(MaybeTruncate(snippet), 0);
    }
    assert RowsOf(rows, expanded, a + 1, b - a, WholeRows(snippet));
  }

  /** A cut snippet always loses a row. */
  lemma FullIsUncut(snippet: string)
    requires WholeRows(snippet) == |Split(snippet)|
    ensures MaybeTruncate(snippet) == snippet
  {
    if |snippet| > MAX_RESPONSE_LEN {
      var kept := snippet[..MAX_RESPONSE_LEN];
      assert kept + snippet[MAX_RESPONSE_LEN..] == snippet;
      SplitConcat(kept, snippet[MAX_RESPONSE_LEN..]);
    }
  }

  /** The output of a view: lines `a..b` of the file, their tabs expanded, under their numbers. */
  ghost predicate ViewedIn(text: string, path: string, content: string, a: nat, b: nat)
    requires a < b <= |Split(content)|
  {
    var snippet := Join(Split(content)[a..b]);
    && Shows(text, path, Split(ExpandTabs(content)), a + 1, b - a, WholeRows(snippet))
    && (|snippet| <= MAX_RESPONSE_LEN ==> WholeRows(snippet) == b - a)
  }

  /** The outcome of a view: an error exactly for a range that is not two numbers or not within the file,
      otherwise the lines of the range; a last line of -1 is the end of the file. */
  ghost predicate IsView(r: Outcome, path: string, content: string, range: seq<int>) {
    var n := |Split(content)|;
    if |range| != 2 then r == ToolError(BadRange)
    else if range[0] < 1 || range[0] > n then r == ToolError(BadFirst)
    else if range[1] > n then r == ToolError(LastTooLarge)
    else if range[1] != -1 && range[1] < range[0] then r == ToolError(LastBeforeFirst)
    else r.Output? && ViewedIn(r.text, path, content, range[0] - 1, if range[1] == -1 then n else range[1])
  }

  lemma ViewLines(content: string, path: string, a: nat, b: nat)
    requires a < b <= |Split(content)|
    ensures ViewedIn(MakeOutput(Join(Split(content)[a..b]), path, a + 1), path, content, a, b)
  {
    SplitLines(content);
    ExpandLines(content, 0);
    SnippetShows(Split(content), Split(ExpandTabs(content)), a, b, path);
  }

  lemma WholeText(content: string)
    ensures Join(Split(content)[0..|Split(content)|]) == content
  {
    JoinSplit(content);
    assert Split(content)[0..|Split(content)|] == Split(content);
  }

  // ---------- edits ----------

  /** The text the edit commands work on. */
  function Expanded(text: string): string {
    ExpandTabs(ReadText(text))
  }

  function Inserted(lines: seq<string>, at: nat, new': seq<string>): seq<string>
    requires at <= |lines|
  {
    lines[..at] + new' + lines[at..]
  }

  lemma InsertedText(content: string, at: nat, new': string)
    requires at <= |Split(content)| && TabFree(content) && TabFree(new')
    ensures var lines := Inserted(Split(content), at, Split(new'));
      Split(Join(lines)) == lines && OneLines(lines) && TabFreeLines(lines)
  {
    var lines := Inserted(Split(content), at, Split(new'));
    SplitLines(content);
    SplitLines(new');
    SplitTabFree(content);
    SplitTabFree(new');
    SplitJoin(lines);
  }

  predicate TabFreeLines(lines: seq<string>) {
    forall k :: 0 <= k < |lines| ==> TabFree(lines[k])
  }

  lemma {:induction false} SplitTabFree(s: string)
    requires TabFree(s)
    ensures TabFreeLines(Split(s))
  {
    if s != "" { SplitTabFree(s[1..]); }
  }

  lemma TabFreeExpanded(lines: seq<string>)
    requires TabFreeLines(lines)
    ensures forall k :: 0 <= k < |lines| ==> lines[k] == ExpandTabs(lines[k])
  {
    forall k | 0 <= k < |lines| ensures lines[k] == ExpandTabs(lines[k]) { ExpandTabFree(lines[k], 0); }
  }

  function AtMost(n: int, m: int): int { if n <= m then n else m }

  function AtLeast(n: int, m: int): int { if n >= m then n else m }

  const EDITED: string := " has been edited. "
  const REVIEW: string := "Review the changes and make sure they are as expected. Edit the file again if necessary."
  const REVIEW_LINES: string :=
    "Review the changes and make sure they are as expected (correct indentation, no duplicate lines, etc). Edit the file again if necessary."

  ghost predicate RegionIn(output: string, descriptor: string, lines: seq<string>, a: nat, b: nat)
    requires a < b <= |lines|
  {
    var snippet := Join(lines[a..b]);
    && Shows(output, descriptor, lines, a + 1, b - a, WholeRows(snippet))
    && (|snippet| <= MAX_RESPONSE_LEN ==> WholeRows(snippet) == b - a)
  }

  /** The output of an edit: between two fixed texts, the lines `a..b` of the resulting file under their
      numbers. */
  ghost predicate ShownIn(text: string, before: string, descriptor: string, after: string,
                          lines: seq<string>, a: nat, b: nat)
    requires a < b <= |lines|
  {
    && |before| + |after| <= |text| && before <= text && text[|text| - |after|..] == after
    && RegionIn(text[|before|..|text| - |after|], descriptor, lines, a, b)
  }

  lemma RegionShows(lines: seq<string>, a: nat, b: nat, descriptor: string, snippet: seq<string>, first: nat)
    requires a < b <= |lines| && OneLines(lines) && TabFreeLines(lines)
    requires lines[a..b] == snippet && first == a + 1
    ensures RegionIn(MakeOutput(Join(snippet), descriptor, first), descriptor, lines, a, b)
  {
    TabFreeExpanded(lines);
    SnippetShows(lines, lines, a, b, descriptor);
  }

  lemma Framed(before: string, output: string, after: string)
    ensures var text := before + output + after;
      before <= text && text[|text| - |after|..] == after && text[|before|..|text| - |after|] == output
  {
  }

  /** The lines around an insertion. */
  function InsertSnippet(lines: seq<string>, at: nat, newLines: seq<string>): seq<string>
    requires at <= |lines|
  {
    lines[AtLeast(0, at - SNIPPET_LINES)..at] + newLines + lines[at..AtMost(|lines|, at + SNIPPET_LINES)]
  }

  /** An insertion: the lines written are the new lines between the old ones, without tabs, and the rows
      shown are those of the new lines with up to four old lines on either side. */
  ghost predicate IsInsertion(written: string, shown: string, before: string, descriptor: string, after: string,
                              content: string, at: nat, new': string)
    requires at <= |Split(content)|
  {
    var lines := Inserted(Split(content), at, Split(new'));
    && Split(written) == lines && TabFreeLines(lines)
    && ShownIn(shown, before, descriptor, after, lines, RegionStart(at), RegionEnd(|Split(content)|, at, |Split(new')|))
  }

  lemma SnippetOfInserted(lines: seq<string>, at: nat, newLines: seq<string>)
    requires at <= |lines|
    ensures Inserted(lines, at, newLines)[RegionStart(at)..RegionEnd(|lines|, at, |newLines|)] == InsertSnippet(lines, at, newLines)
    ensures AtLeast(1, at - SNIPPET_LINES + 1) == RegionStart(at) + 1
  {
    var a, b := RegionStart(at), AtMost(|lines|, at + SNIPPET_LINES);
    var all, part := Inserted(lines, at, newLines), lines[a..at] + newLines + lines[at..b];
    assert |all| == |lines| + |newLines| && |part| == b + |newLines| - a;
    forall k | 0 <= k < |part| ensures all[a + k] == part[k] {
      if k < at - a {
      } else if k < at - a + |newLines| {
        assert part[k] == newLines[k - (at - a)];
      } else {
        assert part[k] == lines[k + a - |newLines|];
      }
    }
    assert all[a..b + |newLines|] == part;
  }

  /** Where the lines around an insertion stand in the new file. */
  function RegionStart(at: nat): nat { AtLeast(0, at - SNIPPET_LINES) }

  function RegionEnd(n: nat, at: nat, added: nat): nat { AtMost(n, at + SNIPPET_LINES) + added }

  /** Line `k` of the new file is shown if and only if it is new or at most four lines away from the new ones. */
  lemma InsertionShownIff(n: nat, at: nat, added: nat, k: int)
    requires at <= n
    ensures RegionStart(at) <= k < RegionEnd(n, at, added) <==> 0 <= k < n + added && at - 4 <= k < at + added + 4
  {
  }

  ghost predicate Contains(s: string, sub: string) {
    exists i: nat :: Occurs(s, sub, i)
  }

  /** The numbers of the lines that contain a text. */
  function LinesWith(lines: seq<string>, sub: string): seq<nat> {
    if lines == [] then []
    else
      var n := |lines| - 1;
      LinesWith(lines[..n], sub) + (if First(lines[n], sub).Some? then [n + 1] else [])
  }

  lemma {:induction false} LinesWithIff(lines: seq<string>, sub: string, n: nat)
    ensures n in LinesWith(lines, sub) <==> 1 <= n <= |lines| && Contains(lines[n - 1], sub)
  {
    if lines != [] { LinesWithIff(lines[..|lines| - 1], sub, n); }
  }

  lemma {:induction false} NoLineWith(lines: seq<string>, sub: string)
    requires OneLines(lines) && !OneLine(sub)
    ensures LinesWith(lines, sub) == []
  {
    if lines != [] {
      NoLineWith(lines[..|lines| - 1], sub);
      NoBreakWithin(lines[|lines| - 1], sub);
    }
  }

  /** A text of several lines that occurs more than once is reported in no line at all. */
  lemma SeveralLinesNameNone(content: string, sub: string)
    requires !OneLine(sub)
    ensures LinesWith(Split(content), sub) == []
  {
    SplitLines(content);
    NoLineWith(Split(content), sub);
  }

  lemma NoBreakWithin(line: string, sub: string)
    requires OneLine(line) && !OneLine(sub)
    ensures !Contains(line, sub)
  {
    var k :| 0 <= k < |sub| && sub[k] == '\n';
    forall i: nat ensures !Occurs(line, sub, i) {
      if i + |sub| <= |line| { assert line[i..i + |sub|][k] == line[i + k] != '\n'; }
    }
  }

  /** The lines shown around a replacement that starts in line `line` and brings in `added` line breaks. */
  function ReplaceStart(line: nat): nat { AtLeast(0, line - SNIPPET_LINES) }

  function ReplaceEnd(n: nat, line: nat, added: nat): nat { AtMost(n, line + SNIPPET_LINES + added + 1) }

  /** Line `k` of the new file is shown if and only if it is at most four lines away from the replacement. */
  lemma ReplacementShownIff(n: nat, line: nat, added: nat, k: int)
    ensures ReplaceStart(line) <= k < ReplaceEnd(n, line, added) <==> 0 <= k < n && line - 4 <= k <= line + added + 4
  {
  }

  lemma ReplacementLines(head: string, new': string, tail: string)
    ensures |Split(head + new' + tail)| == Breaks(head) + Breaks(new') + Breaks(tail) + 1
  {
    SplitConcat(head + new', tail);
    SplitConcat(head, new');
  }

  /** A replacement: one occurrence of `sub` in `content`, the first, is replaced, and the rows shown are
      those of the new text with up to four lines on either side. */
  ghost predicate IsReplacement(written: string, shown: string, before: string, descriptor: string, after: string,
                                content: string, sub: string, new': string)
    requires sub != "" && Count(content, sub) == 1
  {
    var i := First(content, sub).value;
    var line := Breaks(content[..i]);
    && written == content[..i] + new' + content[i + |sub|..] && TabFree(written)
    && line + Breaks(new') < |Split(written)|
    && ShownIn(shown, before, descriptor, after, Split(written), ReplaceStart(line),
               ReplaceEnd(|Split(written)|, line, Breaks(new')))
  }

  lemma WrittenIsTabFree(content: string, sub: string, new': string)
    requires sub != "" && Count(content, sub) == 1 && TabFree(content) && TabFree(new')
    ensures var i := First(content, sub).value;
      var written := Replace(content, sub, new');
      && written == content[..i] + new' + content[i + |sub|..]
      && TabFree(written) && OneLines(Split(written)) && TabFreeLines(Split(written))
      && Breaks(content[..i]) + Breaks(new') < |Split(written)|
  {
    ReplacedOnce(content, sub, new');
    var i := First(content, sub).value;
    ReplacementLines(content[..i], new', content[i + |sub|..]);
    SplitLines(Replace(content, sub, new'));
    SplitTabFree(Replace(content, sub, new'));
  }

  class EditTool {
    var files: map<string, Entry>
    var history: map<string, seq<string>>

    constructor (files: map<string, Entry>)
      ensures this.files == files && history == map[]
    {
      this.files, history := files, map[];
    }

    function History(path: string): seq<string> reads this {
      if path in history then history[path] else []
    }

    /** `validate_path` for the commands other than create. */
    function Validate(path: string, view: bool): (r: Option<EditError>)
      reads this
      ensures r.None? <==> "/" <= path && path in files && (files[path].File? || view)
      ensures r == Some(NotAbsolute) <==> !("/" <= path)
      ensures r == Some(DoesNotExist) <==> "/" <= path && path !in files
      ensures r == Some(IsDirectory) <==> "/" <= path && path in files && files[path].Directory? && !view
    {
      if path == "" || path[0] != '/' then Some(NotAbsolute)
      else if path !in files then Some(DoesNotExist)
      else if files[path].Directory? && !view then Some(IsDirectory)
      else None
    }

    /** `view`: a range outside the file raises, a valid one shows exactly its lines, tabs expanded. */
    method View(path: string, viewRange: Option<seq<int>>) returns (r: Outcome)
      ensures Validate(path, true).Some? ==> r == ToolError(Validate(path, true).value)
      ensures Validate(path, true).None? && files[path].Directory? ==>
        r == if viewRange.Some? && viewRange.value != [] then ToolError(RangeOnDirectory) else Listing
      ensures Validate(path, true).None? && files[path].File? ==>
        IsView(r, path, ReadText(files[path].text), if viewRange.Some? && viewRange.value != [] then viewRange.value else [1, -1])
    {
      var invalid := Validate(path, true);
      if invalid.Some? { return ToolError(invalid.value); }
      var ranged := viewRange.Some? && viewRange.value != [];
      if files[path].Directory? { return if ranged then ToolError(RangeOnDirectory) else Listing; }
      var content := ReadText(files[path].text);
      if ranged {
        r := ViewRange(path, content, viewRange.value);
      } else {
        ViewLines(content, path, 0, |Split(content)|);
        WholeText(content);
        r := Output(MakeOutput(content, path, 1));
      }
    }

    method ViewRange(path: string, content: string, range: seq<int>) returns (r: Outcome)
      ensures IsView(r, path, content, range)
    {
      var lines := Split(content);
      var n := |lines|;
      if |range| != 2 { return ToolError(BadRange); }
      if range[0] < 1 || range[0] > n { return ToolError(BadFirst); }
      if range[1] > n { return ToolError(LastTooLarge); }
      if range[1] != -1 && range[1] < range[0] { return ToolError(LastBeforeFirst); }
      var last := if range[1] == -1 then n else range[1];
      ViewLines(content, path, range[0] - 1, last);
      return Output(MakeOutput(Join(lines[range[0] - 1..last]), path, range[0]));
    }

    /** `create`: never overwrites. */
    method Create(path: string, text: string) returns (r: Outcome)
      modifies this
      ensures path == "" || path[0] != '/' ==> r == ToolError(NotAbsolute)
      ensures path != "" && path[0] == '/' && path in old(files) ==> r == ToolError(AlreadyExists)
      ensures r.ToolError? ==> files == old(files) && history == old(history)
      ensures path != "" && path[0] == '/' && path !in old(files) ==>
        r == Output("File created successfully at: " + path)
        && files == old(files)[path := File(text)]
        && history == old(history)[path := old(History(path)) + [text]]
    {
      if path == "" || path[0] != '/' { return ToolError(NotAbsolute); }
      if path in files { return ToolError(AlreadyExists); }
      files := files[path := File(text)];
      history := history[path := History(path) + [text]];
      return Output("File created successfully at: " + path);
    }

    /** `insert`: the lines of the new file are the new lines between the old expanded ones, and the rows
        shown are its lines from four before to four after them. */
    method Insert(path: string, insertLine: int, text: string) returns (r: Outcome)
      modifies this
      ensures old(Validate(path, false)).Some? ==> r == ToolError(old(Validate(path, false)).value)
      ensures r.ToolError? ==> files == old(files) && history == old(history)
      ensures old(Validate(path, false)).None? ==>
        var content := Expanded(old(files)[path].text);
        var n := |Split(content)|;
        if insertLine < 0 || insertLine > n then r == ToolError(BadInsertLine)
        else
          && path in files && files[path].File? && r.Output?
          && IsInsertion(files[path].text, r.text, "The file " + path + EDITED, "a snippet of the edited file", REVIEW_LINES,
                         content, insertLine, ExpandTabs(text))
          && files == old(files)[path := files[path]]
          && history == old(history)[path := old(History(path)) + [content]]
    {
      var invalid := Validate(path, false);
      if invalid.Some? { return ToolError(invalid.value); }
      var content := Expanded(files[path].text);
      var n := |Split(content)|;
      if insertLine < 0 || insertLine > n { return ToolError(BadInsertLine); }
      ExpandIsTabFree(ReadText(files[path].text), 0);
      ExpandIsTabFree(text, 0);
      var written, message := InsertLines("The file " + path + EDITED, content, insertLine, ExpandTabs(text));
      files := files[path := File(written)];
      history := history[path := History(path) + [content]];
      return Output(message);
    }

    method InsertLines(before: string, content: string, insertLine: nat, new': string) returns (written: string, message: string)
      requires insertLine <= |Split(content)| && TabFree(content) && TabFree(new')
      ensures IsInsertion(written, message, before, "a snippet of the edited file", REVIEW_LINES, content, insertLine, new')
    {
      var lines, newLines := Split(content), Split(new');
      var after := lines[..insertLine] + newLines + lines[insertLine..];
      var snippet := InsertSnippet(lines, insertLine, newLines);
      var descriptor, first := "a snippet of the edited file", AtLeast(1, insertLine - SNIPPET_LINES + 1);
      var output := MakeOutput(Join(snippet), descriptor, first);
      InsertedText(content, insertLine, new');
      SnippetOfInserted(lines, insertLine, newLines);
      RegionShows(after, RegionStart(insertLine), RegionEnd(|lines|, insertLine, |newLines|), descriptor, snippet, first);
      Framed(before, output, REVIEW_LINES);
      return Join(after), before + output + REVIEW_LINES;
    }

    /** `str_replace`: replaces exactly when the expanded text is counted once in the expanded file. An empty
        text is counted once only in an empty file; then the file is written and recorded, and the call
        raises while it looks for the edited line. */
    method StrReplace(path: string, oldStr: string, newStr: Option<string>) returns (r: Outcome)
      modifies this
      ensures old(Validate(path, false)).Some? ==> r == ToolError(old(Validate(path, false)).value)
      ensures r.ToolError? ==> files == old(files) && history == old(history)
      ensures old(Validate(path, false)).None? ==>
        var content := Expanded(old(files)[path].text);
        var sub, new' := ExpandTabs(oldStr), if newStr.Some? then ExpandTabs(newStr.value) else "";
        if Count(content, sub) == 0 then r == ToolError(NotFound)
        else if Count(content, sub) > 1 then r == ToolError(Multiple(LinesWith(Split(content), sub)))
        else
          && path in files && files[path].File?
          && files == old(files)[path := files[path]]
          && history == old(history)[path := old(History(path)) + [content]]
          && if sub == "" then content == "" && files[path].text == new' && r == Crash
             else
               r.Output? && IsReplacement(files[path].text, r.text, "The file " + path + EDITED, "a snippet of " + path, REVIEW,
                                          content, sub, new')
    {
      var invalid := Validate(path, false);
      if invalid.Some? { return ToolError(invalid.value); }
      var content := Expanded(files[path].text);
      var sub, new' := ExpandTabs(oldStr), if newStr.Some? then ExpandTabs(newStr.value) else "";
      var occurrences := Count(content, sub);
      if occurrences == 0 { return ToolError(NotFound); }
      if occurrences > 1 { return ToolError(Multiple(LinesWith(Split(content), sub))); }
      ExpandIsTabFree(ReadText(files[path].text), 0);
      if newStr.Some? { ExpandIsTabFree(newStr.value, 0); }
      var written := Replace(content, sub, new');
      files := files[path := File(written)];
      history := history[path := History(path) + [content]];
      if sub == "" { return Crash; }
      WrittenIsTabFree(content, sub, new');
      var message := ReplaceMessage(path, content, sub, new', written);
      return Output(message);
    }

    method ReplaceMessage(path: string, content: string, sub: string, new': string, written: string) returns (message: string)
      requires sub != "" && Count(content, sub) == 1 && TabFree(content) && TabFree(new')
      requires written == Replace(content, sub, new')
      ensures IsReplacement(written, message, "The file " + path + EDITED, "a snippet of " + path, REVIEW, content, sub, new')
    {
      WrittenIsTabFree(content, sub, new');
      var line := Breaks(content[..First(content, sub).value]);
      var lines := Split(written);
      var start, end := AtLeast(0, line - SNIPPET_LINES), line + SNIPPET_LINES + Breaks(new');
      var snippet := lines[start..AtMost(|lines|, end + 1)];
      var before, descriptor := "The file " + path + EDITED, "a snippet of " + path;
      var output := MakeOutput(Join(snippet), descriptor, start + 1);
      RegionShows(lines, ReplaceStart(line), ReplaceEnd(|lines|, line, Breaks(new')), descriptor, snippet, start + 1);
      Framed(before, output, REVIEW);
      return before + output + REVIEW;
    }
  }
}
