/**
 `mqtt_data_format`: a JSON object built in place in a buffer of 1024 characters, one member a call, and what a
 JSON parser makes of the result.
 */
module MqttFormat {
  import opened Prelude
  import opened Text

  const MAX_MESSAGE_SIZE: nat := 1024
  const SNIPPET_SIZE: nat := 256
  const TEXT_SIZE: nat := 200

  datatype Rc = Success | ErrorParam | ErrorWrite | ErrorUnsupported

  /** What "%.6f" makes of a float: an opaque numeral, or one of the words for the other floats. */
  datatype Float =
    | Finite(negative: bool, whole: nat, micros: nat)
    | Infinite(negative: bool)
    | NotANumber(negative: bool)

  datatype Datum = Int32(v: int) | Floating(f: Float) | Str(s: string) | Boolean(v: int)

  /** The type tag and the data pointer. */
  datatype Argument = Given(datum: Datum) | NoData | OtherType

  // ---------------------------------------------------------------------------------------------
  // What is printed

  function Sign(negative: bool): string {
    if negative then "-" else ""
  }

  function SixDigits(n: nat): string {
    [Digit(n / 100000 % 10), Digit(n / 10000 % 10), Digit(n / 1000 % 10),
     Digit(n / 100 % 10), Digit(n / 10 % 10), Digit(n % 10)]
  }

  function FloatText(f: Float): string {
    match f
    case Finite(negative, whole, micros) => Sign(negative) + Decimal(whole) + "." + SixDigits(micros)
    case Infinite(negative) => Sign(negative) + "inf"
    case NotANumber(negative) => Sign(negative) + "nan"
  }

  function IntText(v: int): string {
    if v < 0 then "-" + Decimal(-v) else Decimal(v)
  }

  /** The text after `used` characters have been written: quotes are escaped, control characters dropped. */
  function Escape(s: string, used: nat): (r: string)
    ensures used <= TEXT_SIZE - 1 ==> used + |r| <= TEXT_SIZE - 1
  {
    if s == "" || used + 2 >= TEXT_SIZE then ""
    else if s[0] == '"' then "\\\"" + Escape(s[1..], used + 2)
    else if s[0] < ' ' then Escape(s[1..], used)
    else [s[0]] + Escape(s[1..], used + 1)
  }

  function DatumText(d: Datum): string {
    match d
    case Int32(v) => IntText(v)
    case Floating(f) => FloatText(f)
    case Str(s) => "\"" + Escape(s, 0) + "\""
    case Boolean(v) => if v != 0 then "true" else "false"
  }

  function Snippet(key: string, d: Datum): string {
    "\"" + key + "\": " + DatumText(d)
  }

  // ---------------------------------------------------------------------------------------------
  // What a call does to the string in the buffer

  function Initialized(content: string): string {
    if content == "" then "{}" else content
  }

  function Append(content: string, snippet: string): Option<string> {
    var n := |content|;
    if n < 2 || content[0] != '{' || content[n - 1] != '}' then None
    else if (n - 1) + (if n > 2 then 1 else 0) + |snippet| + 1 + 1 > MAX_MESSAGE_SIZE then None
    else Some(content[..n - 1] + (if n > 2 then "," else "") + snippet + "}")
  }

  function Format(content: string, key: Option<string>, arg: Argument): (Rc, string) {
    if key.None? || key.value == "" then (ErrorParam, content)
    else
      var start := Initialized(content);
      match arg
      case OtherType => (ErrorUnsupported, start)
      case NoData => (ErrorParam, start)
      case Given(d) =>
        if |Snippet(key.value, d)| >= SNIPPET_SIZE then (ErrorWrite, start)
        else match Append(start, Snippet(key.value, d))
          case None => (ErrorWrite, start)
          case Some(longer) => (Success, longer)
  }

  // ---------------------------------------------------------------------------------------------
  // The buffer

  predicate Terminated(s: seq<char>) {
    '\0' in s
  }

  lemma {:induction false} CStrIs(s: seq<char>, text: string)
    requires |text| < |s| && text == s[..|text|] && s[|text|] == '\0' && '\0' !in text
    ensures CStr(s) == text && Terminated(s)
  {
    if text != "" {
      assert s[0] == text[0];
      CStrIs(s[1..], text[1..]);
    }
  }

  lemma {:induction false} CStrEnds(s: seq<char>)
    requires Terminated(s)
    ensures |CStr(s)| < |s| && CStr(s) == s[..|CStr(s)|] && s[|CStr(s)|] == '\0' && '\0' !in CStr(s)
  {
    if s[0] != '\0' {
      CStrEnds(s[1..]);
    }
  }

  method StrLen(a: array<char>) returns (n: nat)
    requires Terminated(a[..])
    ensures n == |CStr(a[..])|
  {
    CStrEnds(a[..]);
    n := 0;
    while a[n] != '\0'
      invariant n <= |CStr(a[..])|
      decreases |CStr(a[..])| - n
    {
      assert a[..][n] == a[n];
      n := n + 1;
    }
  }

  method MqttDataFormat(key: Option<string>, arg: Argument, dst: array?<char>) returns (rc: Rc)
    requires dst != null ==> dst.Length == MAX_MESSAGE_SIZE && Terminated(dst[..])
    requires key.Some? ==> '\0' !in key.value
    requires arg.Given? && arg.datum.Str? ==> '\0' !in arg.datum.s
    modifies dst
    ensures dst == null ==> rc == ErrorParam
    ensures dst != null ==> Terminated(dst[..]) && (rc, CStr(dst[..])) == Format(old(CStr(dst[..])), key, arg)
  {
    if key.None? || dst == null {
      return ErrorParam;
    }
    if |key.value| == 0 {
      return ErrorParam;
    }
    InitializeObject(dst);
    if arg.OtherType? {
      return ErrorUnsupported;
    }
    if arg.NoData? {
      return ErrorParam;
    }
    var snippet;
    match arg.datum {
      case Int32(v) =>
        snippet := "\"" + key.value + "\": " + IntText(v);
      case Floating(f) =>
        snippet := "\"" + key.value + "\": " + FloatText(f);
      case Boolean(v) =>
        snippet := "\"" + key.value + "\": " + (if v != 0 then "true" else "false");
      case Str(s) =>
        var text := EscapeText(s);
        snippet := "\"" + key.value + "\": " + ("\"" + text + "\"");
    }
    assert snippet == Snippet(key.value, arg.datum);
    if |snippet| >= SNIPPET_SIZE {
      return ErrorWrite;
    }
    NoNulInSnippet(key.value, arg.datum);
    var ok := AppendBeforeClosingBrace(dst, snippet);
    rc := if ok then Success else ErrorWrite;
  }

  method InitializeObject(dst: array<char>)
    requires dst.Length == MAX_MESSAGE_SIZE && Terminated(dst[..])
    modifies dst
    ensures Terminated(dst[..]) && CStr(dst[..]) == Initialized(old(CStr(dst[..])))
  {
    if dst[0] == '\0' {
      dst[0] := '{';
      dst[1] := '}';
      dst[2] := '\0';
      CStrIs(dst[..], "{}");
    }
  }

  lemma {:induction false} EscapeStep(s: string, i: nat, used: nat, before: string)
    requires i < |s| && used + 2 < TEXT_SIZE
    ensures before + Escape(s[i..], used)
         == if s[i] == '"' then before + "\\\"" + Escape(s[i + 1..], used + 2)
            else if s[i] < ' ' then before + Escape(s[i + 1..], used)
            else before + [s[i]] + Escape(s[i + 1..], used + 1)
  {
    assert s[i..][0] == s[i] && s[i..][1..] == s[i + 1..];
  }

  /** The loop over a local buffer of 200 characters. */
  method EscapeText(s: string) returns (text: string)
    requires '\0' !in s
    ensures text == Escape(s, 0)
  {
    var buf := new char[TEXT_SIZE];
    var bi, i := 0, 0;
    while i < |s| && bi + 2 < TEXT_SIZE
      invariant i <= |s| && bi < TEXT_SIZE
      invariant Escape(s, 0) == buf[..bi] + Escape(s[i..], bi)
    {
      ghost var before := buf[..bi];
      EscapeStep(s, i, bi, before);
      if s[i] == '"' {
        buf[bi] := '\\';
        bi := bi + 1;
        buf[bi] := '"';
        bi := bi + 1;
        assert buf[..bi] == before + "\\\"";
      } else if s[i] < ' ' {
      } else {
        buf[bi] := s[i];
        bi := bi + 1;
        assert buf[..bi] == before + [s[i]];
      }
      i := i + 1;
    }
    text := buf[..bi];
  }

  /** Copies a text to a place in the buffer. */
  method Copy(dst: array<char>, p: nat, text: string)
    requires p + |text| <= dst.Length
    modifies dst
    ensures dst[..p + |text|] == old(dst[..p]) + text
  {
    var i := 0;
    while i < |text|
      invariant i <= |text|
      invariant dst[..p + i] == old(dst[..p]) + text[..i]
    {
      dst[p + i] := text[i];
      assert dst[..p + i + 1] == dst[..p + i] + [text[i]];
      i := i + 1;
    }
  }

  /** Overwrites the closing brace with the new member and closes the content again. */
  method AppendBeforeClosingBrace(dst: array<char>, snippet: string) returns (ok: bool)
    requires dst.Length == MAX_MESSAGE_SIZE && Terminated(dst[..])
    requires '\0' !in snippet
    modifies dst
    ensures Terminated(dst[..])
    ensures match Append(old(CStr(dst[..])), snippet)
            case Some(longer) => ok && CStr(dst[..]) == longer
            case None => !ok && dst[..] == old(dst[..])
  {
    ghost var content := CStr(dst[..]);
    CStrEnds(dst[..]);
    var len := StrLen(dst);
    assert content == dst[..len];
    if len < 2 || dst[0] != '{' || dst[len - 1] != '}' {
      return false;
    }
    var needsComma := len > 2;
    var need := (len - 1) + (if needsComma then 1 else 0) + |snippet| + 1 + 1;
    if need > MAX_MESSAGE_SIZE {
      return false;
    }
    var p := len - 1;
    if needsComma {
      dst[p] := ',';
      p := p + 1;
    }
    ghost var head := content[..len - 1] + (if needsComma then "," else "");
    assert dst[..p] == head;
    Copy(dst, p, snippet);
    Close(dst, p + |snippet|, head + snippet);
    ok := true;
  }

  /** Writes the closing brace and ends the string. */
  method Close(dst: array<char>, at_: nat, ghost text: string)
    requires at_ + 1 < dst.Length && dst[..at_] == text && '\0' !in text
    modifies dst
    ensures Terminated(dst[..]) && CStr(dst[..]) == text + "}"
  {
    var p := at_;
    dst[p] := '}';
    p := p + 1;
    dst[p] := '\0';
    assert dst[..p] == text + "}";
    CStrIs(dst[..], text + "}");
  }

  lemma {:induction false} NoNulInEscape(s: string, used: nat)
    requires '\0' !in s
    ensures '\0' !in Escape(s, used)
    decreases |s|
  {
    if s != "" && used + 2 < TEXT_SIZE {
      NoNulInEscape(s[1..], if s[0] == '"' then used + 2 else if s[0] < ' ' then used else used + 1);
    }
  }

  lemma {:induction false} NoNulInSnippet(key: string, d: Datum)
    requires '\0' !in key && (d.Str? ==> '\0' !in d.s)
    ensures '\0' !in Snippet(key, d)
  {
    if d.Str? {
      NoNulInEscape(d.s, 0);
    }
    assert '\0' !in DatumText(d);
  }
}
