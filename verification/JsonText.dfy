/** Reading compact JSON text back, as a client does with the data of a message. Numbers are the integers. */
module JsonText {
  import opened Json
  import opened Wrappers

  // ---------- strings ----------

  function HexDigit(c: char): Option<nat> {
    if '0' <= c <= '9' then Some(c as nat - '0' as nat)
    else if 'a' <= c <= 'f' then Some(c as nat - 'a' as nat + 10)
    else if 'A' <= c <= 'F' then Some(c as nat - 'A' as nat + 10)
    else None
  }

  /** The character of a four-digit escape; halves of surrogate pairs are not read. */
  function HexChar(s: string): Option<char>
    requires |s| == 4
  {
    var a, b, c, d := HexDigit(s[0]), HexDigit(s[1]), HexDigit(s[2]), HexDigit(s[3]);
    if a.None? || b.None? || c.None? || d.None? then None
    else
      var code := 4096 * a.value + 256 * b.value + 16 * c.value + d.value;
      if code < 0xD800 || 0xE000 <= code < 0x10000 then Some(code as char) else None
  }

  function Unescape(c: char): Option<char> {
    if c == '"' || c == '\\' || c == '/' then Some(c)
    else if c == 'n' then Some('\n')
    else if c == 'r' then Some('\r')
    else if c == 't' then Some('\t')
    else if c == 'b' then Some(8 as char)
    else if c == 'f' then Some(12 as char)
    else None
  }

  datatype Parsed<+T> = Bad | Got(value: T, rest: string)

  function Prepend(c: char, p: Parsed<string>): Parsed<string> {
    if p.Bad? then Bad else Got([c] + p.value, p.rest)
  }

  /** The characters of a string up to its closing quote. */
  function ReadChars(s: string): (p: Parsed<string>)
    ensures p.Got? ==> |p.rest| < |s|
    decreases |s|
  {
    if s == "" || s[0] as int < 32 then Bad
    else if s[0] == '"' then Got("", s[1..])
    else if s[0] != '\\' then Prepend(s[0], ReadChars(s[1..]))
    else if |s| >= 6 && s[1] == 'u' then
      var c := HexChar(s[2..6]);
      if c.None? then Bad else Prepend(c.value, ReadChars(s[6..]))
    else if |s| >= 2 && Unescape(s[1]).Some? then Prepend(Unescape(s[1]).value, ReadChars(s[2..]))
    else Bad
  }

  lemma CodeRoundTrip(c: char)
    requires c as int < 32
    ensures HexChar("00" + [HEX[c as int / 16], HEX[c as int % 16]]) == Some(c)
  {
    var n := c as int;
    assert n / 16 == 0 || n / 16 == 1;
    assert HexDigit(HEX[n / 16]) == Some(n / 16);
    HexRoundTrip(n % 16);
    assert 16 * (n / 16) + n % 16 == n;
  }

  lemma HexRoundTrip(n: nat)
    requires n < 16
    ensures HexDigit(HEX[n]) == Some(n)
  {
    if n < 10 { assert HEX[n] == "0123456789"[n]; } else { assert HEX[n] == "abcdef"[n - 10]; }
  }

  lemma SixChars(code: string, rest: string)
    requires |code| == 6
    ensures (code + rest)[2..6] == code[2..6] && (code + rest)[6..] == rest
  {
  }

  lemma CharRoundTrip(c: char, rest: string)
    ensures ReadChars(EscapeChar(c) + rest) == Prepend(c, ReadChars(rest))
  {
    var s := EscapeChar(c) + rest;
    if |EscapeChar(c)| == 6 {
      CodeRoundTrip(c);
      SixChars(EscapeChar(c), rest);
      assert EscapeChar(c)[2..6] == "00" + [HEX[c as int / 16], HEX[c as int % 16]];
    } else if |EscapeChar(c)| == 2 {
      assert s[2..] == rest;
      assert Unescape(s[1]) == Some(c);
    } else {
      assert s[1..] == rest;
    }
  }

  lemma {:induction false} CharsRoundTrip(text: string, rest: string)
    ensures ReadChars(Escape(text) + "\"" + rest) == Got(text, rest)
  {
    if text == "" {
      assert Escape(text) + "\"" + rest == "\"" + rest;
      assert ("\"" + rest)[1..] == rest;
    } else {
      var tail := Escape(text[1..]) + "\"" + rest;
      CharsRoundTrip(text[1..], rest);
      CharRoundTrip(text[0], tail);
      assert Escape(text) + "\"" + rest == EscapeChar(text[0]) + tail;
      assert [text[0]] + text[1..] == text;
    }
  }

  // ---------- numbers ----------

  predicate IsDigit(c: char) {
    '0' <= c <= '9'
  }

  function DigitRun(s: string): (n: nat)
    ensures n <= |s| && Digits(s[..n])
  {
    if s == "" || !IsDigit(s[0]) then 0 else 1 + DigitRun(s[1..])
  }

  function ReadNat(s: string): (p: Parsed<nat>)
    ensures p.Got? ==> |p.rest| < |s|
  {
    var n := DigitRun(s);
    if n == 0 then Bad else Got(ParseDecimal(s[..n]), s[n..])
  }

  function Integer(n: int, rest: string): Parsed<int> {
    Got(n, rest)
  }

  function ReadInt(s: string): (p: Parsed<int>)
    ensures p.Got? ==> |p.rest| < |s|
  {
    if s != "" && s[0] == '-' then
      var p := ReadNat(s[1..]);
      if p.Bad? then Bad else Integer(-(p.value as int), p.rest)
    else
      var p := ReadNat(s);
      if p.Bad? then Bad else Integer(p.value, p.rest)
  }

  /** What may follow a value: anything a number cannot go on with. */
  predicate Ends(rest: string) {
    rest == "" || !IsDigit(rest[0])
  }

  lemma {:induction false} DigitRunOf(digits: string, rest: string)
    requires Digits(digits) && Ends(rest)
    ensures DigitRun(digits + rest) == |digits|
  {
    if digits == "" {
      assert digits + rest == rest;
    } else {
      DigitRunOf(digits[1..], rest);
      assert (digits + rest)[1..] == digits[1..] + rest;
    }
  }

  lemma NatRoundTrip(n: nat, rest: string)
    requires Ends(rest)
    ensures ReadNat(Decimal(n) + rest) == Got(n, rest)
  {
    var s := Decimal(n) + rest;
    DigitRunOf(Decimal(n), rest);
    DecimalRoundTrip(n);
    assert s[..|Decimal(n)|] == Decimal(n) && s[|Decimal(n)|..] == rest;
  }

  lemma Regroup(a: string, b: string, c: string)
    ensures a + b + c == a + (b + c)
  {
  }

  lemma AfterFirst(c: char, s: string)
    ensures ([c] + s)[0] == c && ([c] + s)[1..] == s
  {
  }

  lemma NegativeRead(n: nat, rest: string)
    requires Ends(rest)
    ensures ReadInt("-" + (Decimal(n) + rest)) == Integer(-(n as int), rest)
  {
    NatRoundTrip(n, rest);
    AfterFirst('-', Decimal(n) + rest);
  }

  lemma PositiveRead(n: nat, rest: string)
    requires Ends(rest)
    ensures ReadInt(Decimal(n) + rest) == Integer(n, rest)
    ensures IsDigit((Decimal(n) + rest)[0])
  {
    NatRoundTrip(n, rest);
    assert (Decimal(n) + rest)[0] == Decimal(n)[0];
  }

  lemma IntRoundTrip(n: int, rest: string)
    requires Ends(rest)
    ensures ReadInt(IntText(n) + rest) == Integer(n, rest)
    ensures (IntText(n) + rest)[0] == '-' || IsDigit((IntText(n) + rest)[0])
  {
    if n < 0 {
      NegativeRead(-n, rest);
      Regroup("-", Decimal(-n), rest);
    } else {
      PositiveRead(n, rest);
    }
  }

  // ---------- values ----------

  function Literal(s: string, word: string, value: Json): (p: Parsed<Json>)
    requires word != ""
    ensures p.Got? ==> |p.rest| < |s|
  {
    if word <= s then Got(value, s[|word|..]) else Bad
  }

  lemma LiteralRead(word: string, rest: string, value: Json)
    requires word != ""
    ensures Literal(word + rest, word, value) == Got(value, rest)
  {
    assert (word + rest)[|word|..] == rest;
  }

  function ReadValue(s: string): (p: Parsed<Json>)
    ensures p.Got? ==> |p.rest| < |s|
    decreases |s|, 0
  {
    if s == "" then Bad
    else if s[0] == 'n' then Literal(s, "null", JNull)
    else if s[0] == 't' then Literal(s, "true", JBool(true))
    else if s[0] == 'f' then Literal(s, "false", JBool(false))
    else if s[0] == '"' then
      var p := ReadChars(s[1..]);
      if p.Bad? then Bad else Got(JStr(p.value), p.rest)
    else if s[0] == '[' then
      if |s| > 1 && s[1] == ']' then Got(JArr([]), s[2..])
      else
        var p := ReadItems(s[1..]);
        if p.Bad? then Bad else Got(JArr(p.value), p.rest)
    else if s[0] == '{' then
      if |s| > 1 && s[1] == '}' then Got(JObj(NoMembers), s[2..])
      else
        var p := ReadMembers(s[1..]);
        if p.Bad? then Bad else Got(JObj(p.value), p.rest)
    else
      var p := ReadInt(s);
      if p.Bad? then Bad else Got(JInt(p.value), p.rest)
  }

  /** One or more values, each followed by a comma or the closing bracket. */
  function ReadItems(s: string): (p: Parsed<seq<Json>>)
    ensures p.Got? ==> |p.rest| < |s|
    decreases |s|, 1
  {
    var head := ReadValue(s);
    if head.Bad? || head.rest == "" then Bad
    else if head.rest[0] == ']' then Got([head.value], head.rest[1..])
    else if head.rest[0] != ',' then Bad
    else
      var tail := ReadItems(head.rest[1..]);
      if tail.Bad? then Bad else Got([head.value] + tail.value, tail.rest)
  }

  function ReadMembers(s: string): (p: Parsed<Members>)
    ensures p.Got? ==> |p.rest| < |s|
    decreases |s|, 1
  {
    if s == "" || s[0] != '"' then Bad
    else
      var key := ReadChars(s[1..]);
      if key.Bad? || key.rest == "" || key.rest[0] != ':' then Bad
      else
        var value := ReadValue(key.rest[1..]);
        if value.Bad? || value.rest == "" then Bad
        else if value.rest[0] == '}' then Got(Member(key.value, value.value, NoMembers), value.rest[1..])
        else if value.rest[0] != ',' then Bad
        else
          var tail := ReadMembers(value.rest[1..]);
          if tail.Bad? then Bad else Got(Member(key.value, value.value, tail.value), tail.rest)
  }

  lemma QuotedValue(text: string, rest: string)
    ensures ReadValue(Quote(text) + rest) == Got(JStr(text), rest)
  {
    var tail := Escape(text) + "\"" + rest;
    CharsRoundTrip(text, rest);
    assert Quote(text) + rest == "\"" + tail;
    assert ("\"" + tail)[1..] == tail;
  }

  lemma IntValue(n: int, rest: string)
    requires Ends(rest)
    ensures ReadValue(IntText(n) + rest) == Got(JInt(n), rest)
  {
    var s := IntText(n) + rest;
    IntRoundTrip(n, rest);
    assert s != "" && s[0] !in ['n', 't', 'f', '"', '[', '{'];
    assert ReadInt(s) == Got(n, rest);
  }

  /** Reading what was rendered gives the value and leaves what follows it. */
  lemma {:induction false} ValueRoundTrip(j: Json, rest: string)
    requires Ends(rest)
    ensures ReadValue(Dumps(j) + rest) == Got(j, rest)
    decreases j, 1
  {
    match j
    case JNull => LiteralRead("null", rest, j);
    case JBool(b) => LiteralRead(if b then "true" else "false", rest, j);
    case JInt(n) => IntValue(n, rest);
    case JStr(text) => QuotedValue(text, rest);
    case JArr(items) => ArrayRoundTrip(items, rest);
    case JObj(members) => ObjectRoundTrip(members, rest);
  }

  lemma Bracketed(open: string, body: string, close: string, rest: string)
    ensures open + body + close + rest == open + (body + (close + rest))
  {
  }

  lemma ArrayRoundTrip(items: seq<Json>, rest: string)
    ensures ReadValue("[" + DumpItems(items) + "]" + rest) == Got(JArr(items), rest)
    decreases items, 2
  {
    var tail := DumpItems(items) + ("]" + rest);
    Bracketed("[", DumpItems(items), "]", rest);
    AfterFirst('[', tail);
    if items == [] {
      assert tail == "]" + rest && ("[" + tail)[2..] == rest;
    } else {
      ItemsRoundTrip(items, rest);
      assert tail != "" && tail[0] != ']';
    }
  }

  /** What comes after a comma, with its closing bracket. */
  lemma AfterComma(head: string, tail: string, last: string)
    ensures head + "," + tail + last == head + ("," + (tail + last))
  {
  }

  lemma {:induction false} ItemsRoundTrip(items: seq<Json>, rest: string)
    requires items != []
    ensures ReadItems(DumpItems(items) + ("]" + rest)) == Got(items, rest)
    decreases items, 1
  {
    var head, last := Dumps(items[0]), "]" + rest;
    AfterFirst(']', rest);
    if |items| == 1 {
      ValueRoundTrip(items[0], last);
      assert DumpItems(items) == head && [items[0]] == items;
    } else {
      assert DumpItems(items) == head + "," + DumpItems(items[1..]);
      var tail := DumpItems(items[1..]) + last;
      ItemsRoundTrip(items[1..], rest);
      ValueRoundTrip(items[0], "," + tail);
      AfterComma(head, DumpItems(items[1..]), last);
      AfterFirst(',', tail);
      assert [items[0]] + items[1..] == items;
    }
  }

  lemma ObjectRoundTrip(members: Members, rest: string)
    ensures ReadValue("{" + DumpMembers(members) + "}" + rest) == Got(JObj(members), rest)
    decreases members, 2
  {
    var tail := DumpMembers(members) + ("}" + rest);
    Bracketed("{", DumpMembers(members), "}", rest);
    AfterFirst('{', tail);
    if members.NoMembers? {
      assert tail == "}" + rest && ("{" + tail)[2..] == rest;
    } else {
      MembersRoundTrip(members, rest);
      assert tail[0] != '}';
    }
  }

  lemma {:induction false} MembersRoundTrip(members: Members, rest: string)
    requires members.Member?
    ensures ReadMembers(DumpMembers(members) + ("}" + rest)) == Got(members, rest)
    decreases members, 1
  {
    var key, text, last := members.key, Dumps(members.value), "}" + rest;
    AfterFirst('}', rest);
    if members.rest.NoMembers? {
      ValueRoundTrip(members.value, last);
      MemberRead(key, members.value, text, last);
      assert DumpMembers(members) == Quote(key) + ":" + text;
    } else {
      var tail := DumpMembers(members.rest) + last;
      MembersRoundTrip(members.rest, rest);
      ValueRoundTrip(members.value, "," + tail);
      MemberRead(key, members.value, text, "," + tail);
      AfterFirst(',', tail);
      assert DumpMembers(members) == Quote(key) + ":" + text + "," + DumpMembers(members.rest);
      AfterComma(Quote(key) + ":" + text, DumpMembers(members.rest), last);
    }
  }

  lemma Unquoted(escaped: string, text: string, after: string)
    ensures "\"" + escaped + "\"" + ":" + text + after == "\"" + (escaped + "\"" + (":" + (text + after)))
  {
  }

  /** One member, its value already known to be read, followed by a comma or the closing brace. */
  lemma MemberRead(key: string, value: Json, text: string, after: string)
    requires ReadValue(text + after) == Got(value, after)
    requires after != "" && (after[0] == '}' || after[0] == ',')
    ensures ReadMembers(Quote(key) + ":" + text + after) ==
      if after[0] == '}' then Got(Member(key, value, NoMembers), after[1..])
      else
        var tail := ReadMembers(after[1..]);
        if tail.Bad? then Bad else Got(Member(key, value, tail.value), tail.rest)
  {
    var next := ":" + (text + after);
    CharsRoundTrip(key, next);
    Unquoted(Escape(key), text, after);
    AfterFirst('"', Escape(key) + "\"" + next);
    AfterFirst(':', text + after);
  }
}
