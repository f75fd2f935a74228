/**
 A parser for flat JSON objects after RFC 8259: white space (section 2), literals (section 3), objects (section 4),
 numbers (section 6) and strings (section 7). Nested values and escaped surrogates are not accepted.
 */
module Json {
  import opened Prelude

  datatype Value = JString(text: string) | JNumber(numeral: string) | JBool(b: bool) | JNull

  datatype Member = Member(name: string, value: Value)

  /** What a parser found and what it left. */
  datatype Parsed<+T> = Failed | Found(item: T, rest: string)

  predicate IsWs(c: char) {
    c == ' ' || c == '\t' || c == '\n' || c == '\r'
  }

  function SkipWs(s: string): (r: string)
    ensures |r| <= |s|
  {
    if s != "" && IsWs(s[0]) then SkipWs(s[1..]) else s
  }

  /** A character that may stand in a string as it is. */
  predicate Unescaped(c: char) {
    c >= ' ' && c != '"' && c != '\\'
  }

  function HexValue(c: char): Option<nat> {
    if '0' <= c <= '9' then Some((c - '0') as nat)
    else if 'a' <= c <= 'f' then Some((c - 'a') as nat + 10)
    else if 'A' <= c <= 'F' then Some((c - 'A') as nat + 10)
    else None
  }

  /** The character a two-character escape stands for. */
  function SimpleEscape(c: char): Option<char> {
    match c
    case '"' => Some('"')
    case '\\' => Some('\\')
    case '/' => Some('/')
    case 'b' => Some(8 as char)
    case 'f' => Some(12 as char)
    case 'n' => Some('\n')
    case 'r' => Some('\r')
    case 't' => Some('\t')
    case _ => None
  }

  function HexEscape(s: string): Option<char>
    requires |s| >= 4
  {
    match (HexValue(s[0]), HexValue(s[1]), HexValue(s[2]), HexValue(s[3]))
    case (Some(a), Some(b), Some(c), Some(d)) =>
      var code := ((a * 16 + b) * 16 + c) * 16 + d;
      if code < 0xD800 || 0xE000 <= code < 0x10000 then Some(code as char) else None
    case _ => None
  }

  /** The rest of a string after its opening quotation mark. */
  function Chars(s: string): (r: Parsed<string>)
    ensures r.Found? ==> |r.rest| < |s|
  {
    if s == "" then Failed
    else if s[0] == '"' then Found("", s[1..])
    else if s[0] == '\\' then
      if |s| >= 2 && SimpleEscape(s[1]).Some? then Prepend(SimpleEscape(s[1]).value, Chars(s[2..]))
      else if |s| >= 6 && s[1] == 'u' && HexEscape(s[2..]).Some? then Prepend(HexEscape(s[2..]).value, Chars(s[6..]))
      else Failed
    else if s[0] < ' ' then Failed
    else Prepend(s[0], Chars(s[1..]))
  }

  function Prepend(c: char, r: Parsed<string>): (p: Parsed<string>)
    ensures p.Found? <==> r.Found?
    ensures r.Found? ==> p.item == [c] + r.item && p.rest == r.rest
  {
    match r
    case Failed => Failed
    case Found(text, rest) => Found([c] + text, rest)
  }

  function Str(s: string): (r: Parsed<string>)
    ensures r.Found? ==> |r.rest| < |s|
  {
    if s != "" && s[0] == '"' then Chars(s[1..]) else Failed
  }

  /** The digits a text starts with. */
  function DigitRun(s: string): (n: nat)
    ensures n <= |s| && forall i :: 0 <= i < n ==> IsDigit(s[i])
    ensures n < |s| ==> !IsDigit(s[n])
  {
    if s != "" && IsDigit(s[0]) then 1 + DigitRun(s[1..]) else 0
  }

  function IntLength(s: string): (n: nat)
    ensures n <= |s|
  {
    if s != "" && s[0] == '0' then 1 else DigitRun(s)
  }

  function FracLength(s: string): (n: nat)
    ensures n <= |s|
  {
    if s != "" && s[0] == '.' && DigitRun(s[1..]) > 0 then 1 + DigitRun(s[1..]) else 0
  }

  function ExpLength(s: string): (n: nat)
    ensures n <= |s|
  {
    if s != "" && (s[0] == 'e' || s[0] == 'E') then
      var sign := if |s| > 1 && (s[1] == '+' || s[1] == '-') then 1 else 0;
      if DigitRun(s[1 + sign..]) > 0 then 1 + sign + DigitRun(s[1 + sign..]) else 0
    else 0
  }

  /** minus, int, frac and exp of section 6. */
  /** Where a number ends whose integer part ends at `n`. */
  function NumberEnd(s: string, n: nat): (end: nat)
    requires n <= |s|
    ensures n <= end <= |s|
  {
    var m := n + FracLength(s[n..]);
    m + ExpLength(s[m..])
  }

  function Number(s: string): (r: Parsed<string>)
    ensures r.Found? ==> |r.rest| < |s|
  {
    var minus := if s != "" && s[0] == '-' then 1 else 0;
    var whole := IntLength(s[minus..]);
    if whole == 0 then Failed
    else
      var end := NumberEnd(s, minus + whole);
      Found(s[..end], s[end..])
  }

  function AnyValue(s: string): (r: Parsed<Value>)
    ensures r.Found? ==> |r.rest| < |s|
  {
    if s == "" then Failed
    else if s[0] == '"' then
      match Str(s)
      case Failed => Failed
      case Found(text, rest) => Found(JString(text), rest)
    else if |s| >= 4 && s[..4] == "true" then Found(JBool(true), s[4..])
    else if |s| >= 5 && s[..5] == "false" then Found(JBool(false), s[5..])
    else if |s| >= 4 && s[..4] == "null" then Found(JNull, s[4..])
    else match Number(s)
      case Failed => Failed
      case Found(numeral, rest) => Found(JNumber(numeral), rest)
  }

  /** A name, a colon and a value. */
  function OneMember(s: string): (r: Parsed<Member>)
    ensures r.Found? ==> |r.rest| < |s|
  {
    match Str(SkipWs(s))
    case Failed => Failed
    case Found(name, rest) =>
      var afterName := SkipWs(rest);
      if afterName == "" || afterName[0] != ':' then Failed
      else match AnyValue(SkipWs(afterName[1..]))
        case Failed => Failed
        case Found(value, left) => Found(Member(name, value), left)
  }

  /** The members up to the closing brace. */
  function Members(s: string): Parsed<seq<Member>>
    decreases |s|
  {
    match OneMember(s)
    case Failed => Failed
    case Found(m, rest) =>
      var left := SkipWs(rest);
      if left == "" then Failed
      else if left[0] == '}' then Found([m], left[1..])
      else if left[0] != ',' then Failed
      else match Members(left[1..])
        case Failed => Failed
        case Found(more, end) => Found([m] + more, end)
  }

  /** The members of a JSON text that is an object, in order. */
  function Object(s: string): Option<seq<Member>> {
    var t := SkipWs(s);
    if t == "" || t[0] != '{' then None
    else
      var body := SkipWs(t[1..]);
      if body != "" && body[0] == '}' then (if SkipWs(body[1..]) == "" then Some([]) else None)
      else match Members(body)
        case Failed => None
        case Found(members, rest) => if SkipWs(rest) == "" then Some(members) else None
  }
}
