/** JSON values as `json.dumps(..., ensure_ascii=False, separators=(",", ":"))` renders them.
    Numbers are the integers; floating-point payload values are not part of this model. */
module Json {

  datatype Json =
    | JNull
    | JBool(b: bool)
    | JInt(n: int)
    | JStr(s: string)
    | JArr(items: seq<Json>)
    | JObj(members: Members)

  datatype Members = NoMembers | Member(key: string, value: Json, rest: Members)

  const CR: char := '\r'
  const LF: char := '\n'

  predicate SingleLine(s: string) {
    CR !in s && LF !in s
  }

  predicate Digits(s: string) {
    forall i :: 0 <= i < |s| ==> '0' <= s[i] <= '9'
  }

  const DIGITS: string := "0123456789"

  /** Decimal rendering of a natural number, without leading zeros. */
  function Decimal(n: nat): (s: string)
    ensures |s| > 0
    ensures Digits(s)
  {
    if n < 10 then [DIGITS[n]] else Decimal(n / 10) + [DIGITS[n % 10]]
  }

  function DigitValue(c: char): (v: nat)
    requires '0' <= c <= '9'
    ensures v < 10
  {
    c as int - '0' as int
  }

  /** The integer a run of digits denotes; the inverse of Decimal. */
  function ParseDecimal(s: string): nat
    requires Digits(s)
  {
    if s == "" then 0 else 10 * ParseDecimal(s[..|s| - 1]) + DigitValue(s[|s| - 1])
  }

  lemma {:induction false} DecimalRoundTrip(n: nat)
    ensures ParseDecimal(Decimal(n)) == n
  {
    if n < 10 {
      assert Decimal(n)[..0] == "";
    } else {
      DecimalRoundTrip(n / 10);
      assert Decimal(n)[..|Decimal(n)| - 1] == Decimal(n / 10);
    }
  }

  function IntText(n: int): (s: string)
    ensures |s| > 0 && SingleLine(s)
  {
    if n < 0 then "-" + Decimal(-n) else Decimal(n)
  }

  const HEX: string := "0123456789abcdef"

  /** One character of a JSON string literal: quotes, backslashes and everything below U+0020 are escaped. */
  function EscapeChar(c: char): (s: string)
    ensures |s| > 0 && SingleLine(s)
  {
    if c == '"' then "\\\""
    else if c == '\\' then "\\\\"
    else if c == '\n' then "\\n"
    else if c == '\r' then "\\r"
    else if c == '\t' then "\\t"
    else if c as int == 8 then "\\b"
    else if c as int == 12 then "\\f"
    else if c as int < 32 then "\\u00" + [HEX[c as int / 16], HEX[c as int % 16]]
    else [c]
  }

  function Escape(s: string): (r: string)
    ensures SingleLine(r)
  {
    if s == "" then "" else EscapeChar(s[0]) + Escape(s[1..])
  }

  function Quote(s: string): (r: string)
    ensures |r| > 0 && SingleLine(r)
  {
    "\"" + Escape(s) + "\""
  }

  /** The compact rendering never contains a line break, whatever the value holds. */
  function Dumps(j: Json): (r: string)
    ensures |r| > 0 && SingleLine(r)
    decreases j, 0
  {
    match j
    case JNull => "null"
    case JBool(b) => if b then "true" else "false"
    case JInt(n) => IntText(n)
    case JStr(s) => Quote(s)
    case JArr(items) => "[" + DumpItems(items) + "]"
    case JObj(members) => "{" + DumpMembers(members) + "}"
  }

  function DumpItems(items: seq<Json>): (r: string)
    ensures SingleLine(r)
    decreases items, 1
  {
    if items == [] then ""
    else if |items| == 1 then Dumps(items[0])
    else Dumps(items[0]) + "," + DumpItems(items[1..])
  }

  function DumpMembers(members: Members): (r: string)
    ensures SingleLine(r)
    decreases members, 1
  {
    match members
    case NoMembers => ""
    case Member(key, value, NoMembers) => Quote(key) + ":" + Dumps(value)
    case Member(key, value, rest) => Quote(key) + ":" + Dumps(value) + "," + DumpMembers(rest)
  }
}
