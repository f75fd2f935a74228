/** The event stream of a YAML parser, mapping trees, and the C conversions the loaders apply to scalars. */
module Yaml {
  import opened Prelude

  datatype Event =
    | StreamStart | StreamEnd | DocumentStart | DocumentEnd
    | MappingStart | MappingEnd | SequenceStart | SequenceEnd
    | Scalar(text: string)
    | Alias

  /** A tree of mappings with scalar keys and no sequences. */
  datatype Node = Leaf(text: string) | Mapping(entries: Entries)
  datatype Entries = Nil | Entry(key: string, value: Node, rest: Entries)

  function Flatten(node: Node): seq<Event> {
    match node
    case Leaf(text) => [Scalar(text)]
    case Mapping(entries) => [MappingStart] + FlattenEntries(entries) + [MappingEnd]
  }

  function FlattenEntries(entries: Entries): seq<Event> {
    match entries
    case Nil => []
    case Entry(key, value, rest) => [Scalar(key)] + Flatten(value) + FlattenEntries(rest)
  }

  /** The events of a document with this tree at its root. */
  function Document(root: Node): seq<Event> {
    [StreamStart, DocumentStart] + Flatten(root) + [DocumentEnd, StreamEnd]
  }

  /** Where the stream ends in `events`, or their number if it does not. */
  function EndAt(events: seq<Event>): (n: nat)
    ensures n <= |events| && (n < |events| ==> events[n].StreamEnd?)
    ensures forall m :: 0 <= m < n ==> !events[m].StreamEnd?
  {
    if events == [] || events[0].StreamEnd? then 0
    else
      var n := EndAt(events[1..]);
      assert forall m :: 1 <= m < n + 1 ==> events[m] == events[1..][m - 1];
      n + 1
  }

  lemma {:induction false} NoEndInside(node: Node)
    ensures StreamEnd !in Flatten(node)
    decreases node
  {
    if node.Mapping? {
      NoEndInsideEntries(node.entries);
    }
  }

  lemma {:induction false} NoEndInsideEntries(entries: Entries)
    ensures StreamEnd !in FlattenEntries(entries)
    decreases entries
  {
    if entries.Entry? {
      NoEndInside(entries.value);
      NoEndInsideEntries(entries.rest);
    }
  }

  lemma {:induction false} DocumentEnds(root: Node)
    ensures var events := Document(root);
            && EndAt(events) == |events| - 1
            && events[..EndAt(events)] == [StreamStart, DocumentStart] + Flatten(root) + [DocumentEnd]
  {
    NoEndInside(root);
    var events := Document(root);
    var body := [StreamStart, DocumentStart] + Flatten(root) + [DocumentEnd];
    assert events == body + [StreamEnd];
    assert StreamEnd !in body;
    assert events[|body|].StreamEnd?;
    assert forall m :: 0 <= m < |body| ==> events[m] == body[m] && body[m] in body;
  }

  function Depth(node: Node): nat {
    match node
    case Leaf(_) => 0
    case Mapping(entries) => 1 + DepthEntries(entries)
  }

  function DepthEntries(entries: Entries): nat {
    match entries
    case Nil => 0
    case Entry(_, value, rest) =>
      var a, b := Depth(value), DepthEntries(rest);
      if a > b then a else b
  }

  function Lower(c: char): char {
    if 'A' <= c <= 'Z' then c - 'A' + 'a' else c
  }

  /** `!strcasecmp(a, b)` in the C locale. */
  predicate EqNoCase(a: string, b: string) {
    |a| == |b| && forall n :: 0 <= n < |a| ==> Lower(a[n]) == Lower(b[n])
  }

  function ParseBool(text: string, default: int): int {
    if EqNoCase(text, "true") || EqNoCase(text, "yes") || text == "1" then 1
    else if EqNoCase(text, "false") || EqNoCase(text, "no") || text == "0" then 0
    else default
  }

  predicate IsSpace(c: char) {
    c == ' ' || '\t' <= c <= '\r'
  }

  function SkipSpace(text: string): string {
    if text != "" && IsSpace(text[0]) then SkipSpace(text[1..]) else text
  }

  function Digits(text: string, acc: nat): nat {
    if text != "" && IsDigit(text[0]) then Digits(text[1..], acc * 10 + (text[0] - '0') as int) else acc
  }

  const LONG_MAX: int := 0x7FFF_FFFF_FFFF_FFFF

  /** `strtol(text, NULL, 10)` with a 64-bit long. */
  function Strtol(text: string): int {
    var s := SkipSpace(text);
    var n: int := Digits(if s != "" && (s[0] == '-' || s[0] == '+') then s[1..] else s, 0);
    if s != "" && s[0] == '-' then (if n > LONG_MAX + 1 then -LONG_MAX - 1 else -n)
    else if n > LONG_MAX then LONG_MAX else n
  }

  /** `(int)strtol(text, NULL, 10)`, which is also `atoi(text)`. */
  function Atoi(text: string): int {
    ToInt32(Strtol(text))
  }

  /** Copying into a char array of `size` bytes keeps at most `size - 1` of them. */
  function CopyStr(size: nat, text: string): string
    requires size > 0
  {
    if |text| < size then text else text[..size - 1]
  }
}
