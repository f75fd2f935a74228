/**
 Lines that an update makes too long for the buffer: a second call reads them in two pieces, and a key in what is left
 for the second piece is found.
 */
module ConfigCut {
  import opened Prelude
  import opened Text
  import opened BacnetConfig
  import opened ConfigLine
  import opened ConfigFile
  import opened ConfigUncovered
  import opened ConfigRewrite

  // ---------------------------------------------------------------------------------------------
  // A line that is cut in its comment

  /** What stands in the first part of a line stands in the line. */
  lemma {:induction false} FindInPrefix(line: string, n: nat, k: string)
    requires n <= |line| && Find(line[..n], k).Some?
    ensures Find(line, k) == Find(line[..n], k)
  {
    var pos := Find(line[..n], k).value;
    FindIsFirst(line[..n], k);
    forall i | 0 <= i <= pos
      ensures At(line, k, i) == At(line[..n], k, i)
    {
      AtAgree(line, i, line[..n], i, k);
    }
    FindFirst(line, k, pos);
  }

  lemma {:induction false} SplitsLonger(part: string, rest: string)
    requires part <= rest && Split(part).Some?
    ensures Split(rest).Some?
  {
    SplitsIff(part);
    var i :| 0 <= i < |part| && !IsGap(part[i]);
    assert rest[i] == part[i];
    SplitsIff(rest);
  }

  /** A part of a line holds no key that the line does not hold. */
  lemma {:induction false} NoKeyInPrefix(line: string, n: nat, k: string)
    requires n <= |line| && Parse(line[..n], k).Some?
    ensures Parse(line, k).Some?
  {
    FindInPrefix(line, n, k);
    var colon := Locate(line[..n], k).value;
    assert line[colon] == line[..n][colon] && line[..n][colon..] <= line[colon..];
    SplitsLonger(line[..n][colon..], line[colon..]);
  }

  /** The length of a line after an update: what the key ends, the value, and the comment at its column. */
  function UpdatedLength(line: string, key: string, value: string): nat
    requires Parse(line, key).Some?
  {
    var column, comment := Locate(line, key).value + 2 + |value|, Parse(line, key).value.comment;
    if comment == "" then column + 1
    else (if column < COMMENT_COLUMN then COMMENT_COLUMN else column + 2) + |comment|
  }

  /** A tame line has this length if it holds a key. */
  lemma {:induction false} TameLength(line: string, markers: seq<Marker>, ups: seq<Update>, a: nat)
    requires Tame(line, markers, ups) && a < |ups| && Parse(line, ups[a].key).Some?
    ensures UpdateAll(line, ups) == UpdateOne(line, ups[a])
    ensures |UpdateAll(line, ups)| == UpdatedLength(line, ups[a].key, ups[a].value)
  {
    OthersHoldNothing(line, ups, a);
    OthersHoldNothing(UpdateOne(line, ups[a]), ups, a);
    OneKeyOneChange(line, ups, a, UpdateOne(line, ups[a]));
  }

  /** Less of a comment leaves less of the rest. */
  lemma {:induction false} RestJoins(prefix: string, value: string, less: string, more: string)
    requires less != ""
    ensures prefix + NewRest(|prefix|, value, less + more) == (prefix + NewRest(|prefix|, value, less)) + more
  {
    var pad := Padding(|prefix| + 2 + |value|);
    assert NewRest(|prefix|, value, less + more) == ": " + value + (pad + (less + more));
    assert ": " + value + (pad + (less + more)) == (": " + value + (pad + less)) + more;
  }

  lemma {:induction false} SplitAt(s: string, a: string, b: string)
    requires s == a + b
    ensures s[..|a|] == a && s[|a|..] == b
  {
  }

  lemma {:induction false} LessStays(line: string, key: string, value: string, prefix: string, less: string)
    requires Parse(line, key).Some? && '#' !in value && IsComment(less) && prefix == line[..Locate(line, key).value]
    ensures var part := prefix + NewRest(|prefix|, value, less);
            Put(part, key, value) == Some(part)
  {
    RewrittenStays(line, key, value, less);
  }

  /** An updated line cut in its comment is left as it is by the same update. */
  lemma {:induction false} CutStays(
    line: string, key: string, value: string, prefix: string, comment: string, line': string, n: nat)
    requires Parse(line, key).Some? && '#' !in value && prefix == line[..Locate(line, key).value]
    requires IsComment(comment) && line' == prefix + NewRest(|prefix|, value, comment)
    requires |line'| - |comment| < n <= |line'|
    ensures Put(line'[..n], key, value) == Some(line'[..n])
  {
    var m := n - (|line'| - |comment|);
    CutOfRest(prefix, value, comment, m);
    LessStays(line, key, value, prefix, comment[..m]);
  }

  lemma {:induction false} CutOfRest(prefix: string, value: string, comment: string, m: nat)
    requires 0 < m <= |comment| && IsComment(comment)
    ensures IsComment(comment[..m])
    ensures var whole := prefix + NewRest(|prefix|, value, comment);
            |whole| >= |comment|
            && whole[..|whole| - |comment| + m] == prefix + NewRest(|prefix|, value, comment[..m])
  {
    var less, more := comment[..m], comment[m..];
    assert comment == less + more;
    RestJoins(prefix, value, less, more);
    SplitAt(prefix + NewRest(|prefix|, value, comment), prefix + NewRest(|prefix|, value, less), more);
  }

  /**
   A tame line becomes too long for the buffer, its comment starting within it: it survives the second call if and
   only if what is left of it for the second piece does.
   */
  lemma {:induction false} CutLineSurvivesIff(line: string, markers: seq<Marker>, ups: seq<Update>, a: nat)
    requires Tame(line, markers, ups) && a < |ups| && Parse(line, ups[a].key).Some?
    requires var line' := UpdateAll(line, ups);
             && IsLine(line', true)
             && |line'| - |Parse(line, ups[a].key).value.comment| < PIECE_MAX < |line'| <= 2 * PIECE_MAX
    ensures var line' := UpdateAll(line, ups);
            Survives(line', ups) <==> UpdateAll(line'[PIECE_MAX..], ups) == line'[PIECE_MAX..]
  {
    var line' := UpdateAll(line, ups);
    TameLength(line, markers, ups, a);
    FirstPieceStays(line, ups[a], line', PIECE_MAX);
    PartHoldsNoOther(line', PIECE_MAX, ups, a);
    OnlyOneUpdate(line'[..PIECE_MAX], ups, a);
    SurvivesIffSecond(line', ups);
  }

  lemma {:induction false} SurvivesIffSecond(line: string, ups: seq<Update>)
    requires PIECE_MAX < |line| <= 2 * PIECE_MAX && IsLine(line, true)
    requires UpdateAll(line[..PIECE_MAX], ups) == line[..PIECE_MAX]
    ensures Survives(line, ups) <==> UpdateAll(line[PIECE_MAX..], ups) == line[PIECE_MAX..]
  {
    TwoPieces(line, ups);
    SameEndIff(line[..PIECE_MAX], line[PIECE_MAX..], UpdateAll(line[PIECE_MAX..], ups));
    assert line == line[..PIECE_MAX] + line[PIECE_MAX..];
  }

  lemma {:induction false} SameEndIff(a: string, b: string, b': string)
    ensures a + b' == a + b <==> b' == b
  {
    assert (a + b)[|a|..] == b && (a + b')[|a|..] == b';
  }

  lemma {:induction false} FirstPieceStays(line: string, u: Update, line': string, n: nat)
    requires Parse(line, u.key).Some? && '#' !in u.value && line' == UpdateOne(line, u)
    requires |line'| - |Parse(line, u.key).value.comment| < n <= |line'|
    ensures UpdateOne(line'[..n], u) == line'[..n]
  {
    PutOf(line, u.key, u.value);
    CutStays(line, u.key, u.value, line[..Locate(line, u.key).value], Parse(line, u.key).value.comment, line', n);
  }

  lemma {:induction false} PartHoldsNoOther(line: string, n: nat, ups: seq<Update>, a: nat)
    requires n <= |line| && forall b :: 0 <= b < |ups| && b != a ==> Parse(line, ups[b].key).None?
    ensures forall b :: 0 <= b < |ups| && b != a ==> Parse(line[..n], ups[b].key).None?
  {
    forall b | 0 <= b < |ups| && b != a
      ensures Parse(line[..n], ups[b].key).None?
    {
      if Parse(line[..n], ups[b].key).Some? {
        NoKeyInPrefix(line, n, ups[b].key);
      }
    }
  }

  lemma {:induction false} OnlyOneUpdate(line: string, ups: seq<Update>, a: nat)
    requires a < |ups| && forall b :: 0 <= b < |ups| && b != a ==> Parse(line, ups[b].key).None?
    requires UpdateOne(line, ups[a]) == line
    ensures UpdateAll(line, ups) == line
  {
    OthersHoldNothing(line, ups, a);
    OneKeyOneChange(line, ups, a, line);
  }

  lemma {:induction false} TwoPieces(line: string, ups: seq<Update>)
    requires PIECE_MAX < |line| <= 2 * PIECE_MAX && IsLine(line, true)
    ensures UpdatedText(Pieces(line), ups) == UpdateAll(line[..PIECE_MAX], ups) + UpdateAll(line[PIECE_MAX..], ups)
  {
    var rest := line[PIECE_MAX..];
    assert line[..PIECE_MAX - 1] == Front(line)[..PIECE_MAX - 1];
    TakenStops(line, PIECE_MAX, PIECE_MAX);
    FirstUpdated(line, ups);
    EndIsLine(line, PIECE_MAX, true);
    OnePiece(rest, true);
    assert UpdateAll(rest, ups) + "" == UpdateAll(rest, ups);
  }

  // ---------------------------------------------------------------------------------------------
  // Lines without markers

  lemma {:induction false} FindInSuffix(line: string, n: nat, m: string)
    requires n <= |line| && Find(line, m).None?
    ensures Find(line[n..], m).None?
  {
    FindIsFirst(line, m);
    FindIsFirst(line[n..], m);
    if i: nat :| i <= |line[n..]| && At(line[n..], m, i) {
      AtAgree(line, n + i, line[n..], i, m);
    }
  }

  lemma {:induction false} NotInPrefix(line: string, n: nat, m: string)
    requires n <= |line| && Find(line, m).None?
    ensures Find(line[..n], m).None?
  {
    if Find(line[..n], m).Some? {
      FindInPrefix(line, n, m);
    }
  }

  lemma {:induction false} PieceAt(line: string, k: nat)
    requires '\0' !in line && k < |Pieces(line)|
    ensures line != ""
    ensures var n := Taken(line, PIECE_MAX);
            && (k > 0 ==> k - 1 < |Pieces(line[n..])|)
            && Pieces(line)[k] == if k == 0 then line[..n] else Pieces(line[n..])[k - 1]
  {
    var n := Taken(line, PIECE_MAX);
    FirstPiece(line);
    CStrIsPrefix(line[..n]);
    assert CStr(line[..n]) == line[..n];
  }

  lemma {:induction false} NotInPieces(line: string, m: string, k: nat)
    requires Find(line, m).None? && '\0' !in line && k < |Pieces(line)|
    ensures Find(Pieces(line)[k], m).None?
    decreases |line|
  {
    PieceAt(line, k);
    if k == 0 {
      NotInPrefix(line, Taken(line, PIECE_MAX), m);
    } else {
      FindInSuffix(line, Taken(line, PIECE_MAX), m);
      NotInPieces(line[Taken(line, PIECE_MAX)..], m, k - 1);
    }
  }

  lemma {:induction false} NoSwitch(line: string, current: Section, markers: seq<Marker>)
    requires forall n :: 0 <= n < |markers| ==> Find(line, markers[n].text).None?
    ensures SectionOf(line, current, markers) == current
  {
    if markers != [] {
      NoSwitch(line, current, markers[1..]);
    }
  }

  lemma {:induction false} NoSwitches(lines: seq<string>, current: Section, layout: Layout, k: nat)
    requires k < |lines|
    requires forall i, n :: 0 <= i < |lines| && 0 <= n < |layout.markers| ==>
               Find(lines[i], layout.markers[n].text).None?
    ensures SectionAt(lines, k, current, layout) == current
  {
    NoSwitch(lines[0], current, layout.markers);
    if k > 0 {
      NoSwitches(lines[1..], current, layout, k - 1);
    }
  }

  /** A line without markers is updated in one section, however it is cut. */
  lemma {:induction false} UnmarkedKeepsSection(line: string, layout: Layout)
    requires '\0' !in line && forall n :: 0 <= n < |layout.markers| ==> Find(line, layout.markers[n].text).None?
    ensures KeepsSection(line, layout)
  {
    forall i, n | 0 <= i < |Pieces(line)| && 0 <= n < |layout.markers|
      ensures Find(Pieces(line)[i], layout.markers[n].text).None?
    {
      NotInPieces(line, layout.markers[n].text, i);
    }
    forall current, k | 0 <= k < |Pieces(line)|
      ensures SectionAt(Pieces(line), k, current, layout) == SectionOf(line, current, layout.markers)
    {
      NoSwitches(Pieces(line), current, layout, k);
      NoSwitch(line, current, layout.markers);
    }
  }

  // ---------------------------------------------------------------------------------------------
  // A file that is rewritten twice

  const INTERFACE := "interface"
  const SECOND := "interface: x\n"

  function Filler(): (s: string)
    ensures |s| == 464 && forall i :: 0 <= i < |s| ==> s[i] == 'x' || s[i] == ' '
  {
    seq(464, i => if i < 463 then 'x' else ' ')
  }

  function LongComment(): string {
    "# interface " + Filler() + SECOND
  }

  /** A line of the port, with a value or a value and blanks before the comment. */
  function PortLine(middle: string): string {
    PORT + (": " + middle + LongComment())
  }

  predicate DigitsAndBlanks(s: string) {
    s != "" && IsDigit(s[0]) && forall i :: 0 <= i < |s| ==> IsDigit(s[i]) || s[i] == ' '
  }

  lemma {:induction false} LetterMissing(s: string, m: string, j: nat)
    requires j < |m| && m[j] !in s
    ensures Find(s, m).None?
  {
    FindIsFirst(s, m);
    if i: nat :| i <= |s| && At(s, m, i) {
      assert false;
    }
  }

  /** Letters of markers that the line does not hold. */
  predicate Missing(c: char) {
    c == 'b' || c == 'd' || c == 'l' || c == 'w' || c == 's' || c == 'h' || c == '\0'
  }

  lemma {:induction false} PortLineLetters(middle: string, c: char)
    requires DigitsAndBlanks(middle) && Missing(c)
    ensures c !in PortLine(middle)
  {
    assert c !in PORT && c !in ": " && c !in middle && c !in "# interface " && c !in Filler() && c !in SECOND;
  }

  lemma {:induction false} TwoAt(s: string, m: string, i: int, j: nat, k: nat)
    requires At(s, m, i) && j < |m| && k < |m|
    ensures s[i + j] == m[j] && s[i + k] == m[k]
  {
  }

  /** A word holds a letter twice that the text holds once. */
  lemma {:induction false} LetterOnce(s: string, m: string, j: nat, k: nat, place: nat)
    requires j < k < |m| && m[j] == m[k] && forall i :: 0 <= i < |s| && s[i] == m[j] ==> i == place
    ensures Find(s, m).None?
  {
    FindIsFirst(s, m);
    if Find(s, m).Some? {
      TwoAt(s, m, Find(s, m).value, j, k);
      assert false;
    }
  }

  lemma {:induction false} NoConnection(middle: string)
    requires DigitsAndBlanks(middle)
    ensures Find(PortLine(middle), "connection:").None?
  {
    var s, rest := PortLine(middle), ": " + middle + LongComment();
    assert 'o' !in ": " && 'o' !in middle && 'o' !in "# interface " && 'o' !in Filler() && 'o' !in SECOND;
    assert 'o' !in rest;
    assert forall i :: 4 <= i < |s| ==> s[i] == rest[i - 4];
    assert "connection:"[1] == "connection:"[8] == 'o';
    LetterOnce(s, "connection:", 1, 8, 1);
  }

  lemma {:induction false} MissingLetters(middle: string)
    requires DigitsAndBlanks(middle)
    ensures forall c :: Missing(c) ==> c !in PortLine(middle)
    ensures '\0' !in PortLine(middle)
  {
    forall c | Missing(c)
      ensures c !in PortLine(middle)
    {
      PortLineLetters(middle, c);
    }
    assert Missing('\0');
  }

  lemma {:induction false} SevenMarkers(s: string)
    requires Find(s, "bacnet:").None? && Find(s, "discovery:").None? && Find(s, "local_device:").None?
    requires Find(s, "network:").None? && Find(s, "services:").None? && Find(s, "connection:").None?
    requires Find(s, "hot_config:").None?
    ensures forall n :: 0 <= n < |MARKERS| ==> Find(s, MARKERS[n].text).None?
  {
  }

  lemma {:induction false} PortLineUnmarked(middle: string)
    requires DigitsAndBlanks(middle)
    ensures forall n :: 0 <= n < |MARKERS| ==> Find(PortLine(middle), MARKERS[n].text).None?
    ensures '\0' !in PortLine(middle)
  {
    MissingLetters(middle);
    NoConnection(middle);
    FourMarkers(PortLine(middle));
    TwoMarkers(PortLine(middle));
    SevenMarkers(PortLine(middle));
  }

  lemma {:induction false} FourMarkers(s: string)
    requires forall c :: Missing(c) ==> c !in s
    ensures Find(s, "bacnet:").None? && Find(s, "discovery:").None? && Find(s, "local_device:").None?
    ensures Find(s, "network:").None?
  {
    assert Missing('b') && Missing('d') && Missing('l') && Missing('w');
    LetterMissing(s, "bacnet:", 0);
    LetterMissing(s, "discovery:", 0);
    LetterMissing(s, "local_device:", 0);
    LetterMissing(s, "network:", 3);
  }

  lemma {:induction false} TwoMarkers(s: string)
    requires forall c :: Missing(c) ==> c !in s
    ensures Find(s, "services:").None? && Find(s, "hot_config:").None?
  {
    assert Missing('s') && Missing('h');
    LetterMissing(s, "services:", 0);
    LetterMissing(s, "hot_config:", 0);
  }

  // ---------------------------------------------------------------------------------------------
  // The keys in the line

  lemma {:induction false} PortIsFound(middle: string)
    requires DigitsAndBlanks(middle)
    ensures Locate(PortLine(middle), PORT) == Some(4)
    ensures Parse(PortLine(middle), PORT) == Some(Field(": ", middle, LongComment()))
  {
    var f := Field(": ", middle, LongComment());
    assert LongComment()[0] == '#';
    assert PortLine(middle) == PORT + Joined(f);
    FirstField(PORT, f);
  }

  /** The first `interface` has no colon behind it. */
  lemma {:induction false} InterfaceIsNotFound(middle: string)
    requires DigitsAndBlanks(middle)
    ensures Parse(PortLine(middle), INTERFACE).None?
  {
    var head := PORT + ": " + middle + "# ";
    var rest := " " + Filler() + SECOND;
    var s := PortLine(middle);
    assert "# interface " == "# " + (INTERFACE + " ");
    assert s == head + (INTERFACE + rest);
    assert 'i' !in PORT && 'i' !in ": " && 'i' !in middle && 'i' !in "# ";
    assert 'i' !in head && s[..|head|] == head && s[|head|..|head| + |INTERFACE|] == INTERFACE;
    FirstLetter(s, INTERFACE, |head|);
    assert s[|head| + |INTERFACE|] == rest[0] == ' ';
  }

  /** The middle of the line after an update: the new value and what moves the comment to its column. */
  function NewMiddle(n: nat): string {
    Decimal(n) + Padding(6 + |Decimal(n)|)
  }

  lemma {:induction false} DecimalStep(n: nat)
    ensures |Decimal(n)| == if n < 10 then 1 else |Decimal(n / 10)| + 1
  {
  }

  lemma {:induction false} PortIsShort(n: nat)
    requires n < 0x1_0000
    ensures |Decimal(n)| <= 5
  {
    DecimalStep(n);
    DecimalStep(n / 10);
    DecimalStep(n / 10 / 10);
    DecimalStep(n / 10 / 10 / 10);
    DecimalStep(n / 10 / 10 / 10 / 10);
  }

  lemma {:induction false} NewMiddleIs(n: nat)
    requires n < 0x1_0000
    ensures DigitsAndBlanks(NewMiddle(n)) && |NewMiddle(n)| == 29
    ensures DigitsAndBlanks("1 ")
  {
    PortIsShort(n);
  }

  lemma {:induction false} PortUpdated(n: nat)
    requires n < 0x1_0000
    ensures Put(PortLine("1 "), PORT, Decimal(n)) == Some(PortLine(NewMiddle(n)))
  {
    NewMiddleIs(n);
    PortIsFound("1 ");
    assert PortLine("1 ")[..4] == PORT;
    JoinedMiddle(Decimal(n), Padding(6 + |Decimal(n)|), LongComment());
  }

  lemma {:induction false} JoinedMiddle(value: string, pad: string, comment: string)
    ensures ": " + value + (pad + comment) == ": " + (value + pad) + comment
  {
  }

  /** The updates of the network section that the file asks for. */
  function TwoOfNetwork(value: string, n: nat): seq<Update> {
    [Update(INTERFACE, value), Update(PORT, Decimal(n))]
  }

  lemma {:induction false} NoWordIn(s: string, m: string)
    requires IsWord(m) && forall i :: 0 <= i < |s| ==> !('a' <= s[i] <= 'z')
    ensures Absent(s, m)
  {
    forall i | 0 <= i <= |s|
      ensures !At(s, m, i)
    {
      assert i < |s| ==> s[i + 0] != m[0];
    }
  }

  lemma {:induction false} PlainMiddleUnmarked(s: string)
    requires forall i :: 0 <= i < |s| ==> IsDigit(s[i]) || s[i] == ' '
    ensures Unmarked(s, MARKERS)
  {
    MarkersAreWords();
    forall k | 0 <= k < |MARKERS|
      ensures Absent(s, MARKERS[k].text)
    {
      NoWordIn(s, MARKERS[k].text);
    }
  }

  lemma {:induction false} PortLineIsTame(value: string, n: nat)
    requires n < 0x1_0000
    ensures Tame(PortLine("1 "), MARKERS, TwoOfNetwork(value, n))
    ensures UpdateAll(PortLine("1 "), TwoOfNetwork(value, n)) == PortLine(NewMiddle(n))
  {
    NewMiddleIs(n);
    PortIsFound("1 ");
    PortUpdated(n);
    InterfaceIsNotFound("1 ");
    InterfaceIsNotFound(NewMiddle(n));
    PlainMiddleUnmarked("1 ");
    PlainMiddleUnmarked(Decimal(n));
    TwoUpdates(PortLine("1 "), Update(INTERFACE, value), Update(PORT, Decimal(n)));
    OneIsTame(PortLine("1 "), MARKERS, TwoOfNetwork(value, n), 1);
  }

  lemma {:induction false} OneIsTame(line: string, markers: seq<Marker>, ups: seq<Update>, a: nat)
    requires a < |ups| && Parse(line, ups[a].key).Some? && Alone(line, ups, a)
    requires forall b :: 0 <= b < |ups| && b != a ==> Parse(line, ups[b].key).None?
    requires '#' !in ups[a].value
    requires Unmarked(ups[a].value, markers) && Unmarked(Parse(line, ups[a].key).value.value, markers)
    ensures Tame(line, markers, ups)
  {
    forall b, c | 0 <= b < |ups| && 0 <= c < |ups| && Parse(line, ups[b].key).Some? && Parse(line, ups[c].key).Some?
      ensures b == c
    {
      assert b == a && c == a;
    }
  }

  lemma {:induction false} NoneIsTame(line: string, markers: seq<Marker>, ups: seq<Update>)
    requires NoKeys(line, ups)
    ensures Tame(line, markers, ups)
  {
  }

  lemma {:induction false} HoldsNoKey(line: string, value: string, n: nat)
    requires 'i' !in line && 'p' !in line
    ensures NoKeys(line, TwoOfNetwork(value, n))
  {
    LetterMissing(line, INTERFACE, 0);
    LetterMissing(line, PORT, 0);
    assert Parse(line, INTERFACE).None? && Parse(line, PORT).None?;
  }

  lemma {:induction false} SwitchesToNetwork(line: string)
    requires 'b' !in line && 'd' !in line && 'l' !in line && "network:" <= line
    ensures SectionOf(line, NoSection, MARKERS) == Network
  {
    LetterMissing(line, "bacnet:", 0);
    LetterMissing(line, "discovery:", 0);
    LetterMissing(line, "local_device:", 0);
    KeyFirst(line, "network:");
    SectionFourth(line);
  }

  lemma {:induction false} NextMarker(line: string, k: nat)
    requires k < |MARKERS| && Find(line, MARKERS[k].text).None?
    ensures SectionOf(line, NoSection, MARKERS[k..]) == SectionOf(line, NoSection, MARKERS[k + 1..])
  {
    assert MARKERS[k..][0] == MARKERS[k] && MARKERS[k..][1..] == MARKERS[k + 1..];
  }

  lemma {:induction false} SectionFourth(line: string)
    requires Find(line, "bacnet:").None? && Find(line, "discovery:").None? && Find(line, "local_device:").None?
    requires Find(line, "network:").Some?
    ensures SectionOf(line, NoSection, MARKERS) == Network
  {
    NextMarker(line, 0);
    NextMarker(line, 1);
    NextMarker(line, 2);
    assert MARKERS[0..] == MARKERS && MARKERS[3..][0] == Marker("network:", Network);
  }

  lemma {:induction false} SecondIsPut(value: string)
    ensures Put(SECOND, INTERFACE, value) == Some(INTERFACE + (": " + value + "\n"))
  {
    var f := Field(": ", "x\n", "");
    assert SECOND == INTERFACE + Joined(f);
    FirstField(INTERFACE, f);
    assert SECOND[..9] == INTERFACE;
  }

  lemma {:induction false} PortIsMissing(value: string)
    requires 'p' !in value
    ensures Find(INTERFACE + (": " + value + "\n"), PORT).None?
  {
    var line := INTERFACE + (": " + value + "\n");
    assert 'p' !in INTERFACE && 'p' !in ": " && 'p' !in "\n";
    LetterMissing(line, PORT, 0);
  }

  lemma {:induction false} SecondDiffers(value: string)
    requires value != "" && value[0] != 'x'
    ensures INTERFACE + (": " + value + "\n") != SECOND
  {
    var line := INTERFACE + (": " + value + "\n");
    assert line[11] == value[0] && SECOND[11] == 'x';
  }

  /** What is left for the second piece holds the key with its colon, and is updated. */
  lemma {:induction false} SecondIsUpdated(value: string, n: nat)
    requires 'p' !in value && value != "" && value[0] != 'x'
    ensures UpdateAll(SECOND, TwoOfNetwork(value, n)) != SECOND
  {
    var line := INTERFACE + (": " + value + "\n");
    SecondIsPut(value);
    PortIsMissing(value);
    TwoUpdates(SECOND, Update(INTERFACE, value), Update(PORT, Decimal(n)));
    SecondDiffers(value);
  }

  /** The lines of the file. */
  function PortFile(header: string, middle: string): seq<string> {
    [header, PortLine(middle)]
  }

  lemma {:induction false} PortLineIsLine(middle: string)
    requires DigitsAndBlanks(middle)
    ensures IsLine(PortLine(middle), true) && |PortLine(middle)| == |middle| + 495
    ensures PortLine(middle)[|middle| + 482..] == SECOND
  {
    var head := PORT + (": " + middle + ("# interface " + Filler()));
    assert PortLine(middle) == head + SECOND;
    assert '\n' !in PORT && '\n' !in ": " && '\n' !in middle && '\n' !in "# interface " && '\n' !in Filler();
    PortLineLetters(middle, '\0');
    assert '\0' !in head;
    assert Front(SECOND) == "interface: x";
    JoinedIsLine(head, SECOND, true);
  }

  lemma {:induction false} PortFileIsRead(header: string, middle: string)
    requires IsHeader(header) && DigitsAndBlanks(middle)
    ensures Fit(PortFile(header, middle)) <==> |middle| <= 16
    ensures Whole(PortFile(header, middle)) && Written(PortFile(header, middle)) == header + PortLine(middle)
    ensures |middle| <= 16 ==> Pieces(header + PortLine(middle)) == PortFile(header, middle)
  {
    PortLineIsLine(middle);
    var lines := PortFile(header, middle);
    assert lines[1..] == [PortLine(middle)] && PortLine(middle) + "" == PortLine(middle);
    assert Written(lines[1..]) == PortLine(middle) + Written([]);
    WholeIsReadIffFit(lines);
  }

  lemma {:induction false} StaysInNetwork(middle: string)
    requires DigitsAndBlanks(middle)
    ensures SectionOf(PortLine(middle), Network, MARKERS) == Network
  {
    PortLineUnmarked(middle);
    NoSwitch(PortLine(middle), Network, MARKERS);
  }

  /** A line that switches to the network section and holds no key of it. */
  predicate IsHeader(line: string) {
    && "network:" <= line && IsLine(line, false) && |line| <= PIECE_MAX
    && 'i' !in line && 'p' !in line && 'b' !in line && 'd' !in line && 'l' !in line
  }

  lemma {:induction false} NetworkIsHeader()
    ensures IsHeader("network:\n")
  {
    assert Front("network:\n") == "network:";
  }

  lemma {:induction false} HeaderStays(line: string, value: string, n: nat)
    requires IsHeader(line)
    ensures SectionOf(line, NoSection, MARKERS) == Network
    ensures Tame(line, MARKERS, TwoOfNetwork(value, n)) && UpdateAll(line, TwoOfNetwork(value, n)) == line
  {
    SwitchesToNetwork(line);
    HoldsNoKey(line, value, n);
    NoneIsTame(line, MARKERS, TwoOfNetwork(value, n));
    NoKeyNoChange(line, TwoOfNetwork(value, n));
  }

  lemma {:induction false} PortFileIsTame(header: string, value: string, n: nat, layout: Layout)
    requires IsHeader(header) && n < 0x1_0000
    requires layout.markers == MARKERS && layout.updates(Network) == TwoOfNetwork(value, n)
    ensures TameFile(PortFile(header, "1 "), NoSection, layout)
    ensures UpdateLines(PortFile(header, "1 "), NoSection, layout) == PortFile(header, NewMiddle(n))
    ensures SectionAt(PortFile(header, NewMiddle(n)), 1, NoSection, layout) == Network
  {
    NewMiddleIs(n);
    PortLineIsTame(value, n);
    HeaderStays(header, value, n);
    StaysInNetwork("1 ");
    StaysInNetwork(NewMiddle(n));
    TwoLines(header, PortLine("1 "), layout);
    TwoLines(header, PortLine(NewMiddle(n)), layout);
  }

  lemma {:induction false} TwoLines(first: string, second: string, layout: Layout)
    requires SectionOf(first, NoSection, layout.markers) == Network
    requires SectionOf(second, Network, layout.markers) == Network
    ensures var lines, ups := [first, second], layout.updates(Network);
            && SectionAt(lines, 0, NoSection, layout) == Network && SectionAt(lines, 1, NoSection, layout) == Network
            && UpdateLines(lines, NoSection, layout) == [UpdateAll(first, ups), UpdateAll(second, ups)]
  {
    var lines := [first, second];
    assert lines[1..] == [second] && [second][1..] == [];
    assert UpdateLines([second], Network, layout) == [UpdateAll(second, layout.updates(Network))] + [];
  }

  /** The updated line does not survive. */
  lemma {:induction false} NewLineIsCut(value: string, n: nat)
    requires n < 0x1_0000 && 'p' !in value && value != "" && value[0] != 'x'
    ensures |PortLine(NewMiddle(n))| > PIECE_MAX
    ensures !Survives(PortLine(NewMiddle(n)), TwoOfNetwork(value, n))
  {
    NewMiddleIs(n);
    PortLineIsTame(value, n);
    PortLineIsLine(NewMiddle(n));
    PortIsFound("1 ");
    CutLineSurvivesIff(PortLine("1 "), MARKERS, TwoOfNetwork(value, n), 1);
    SecondIsUpdated(value, n);
  }

  /** A line that does not survive makes the second call change the file, and read more lines. */
  lemma {:induction false} CutLineIsRewritten(file: string, cfg: Config, k: nat)
    requires IsPlain(cfg.interfaceName) && IsPlain(cfg.broadcastAddress)
    requires Whole(Pieces(file)) && TameFile(Pieces(file), NoSection, LayoutOf(cfg))
    requires var lines, layout := Updated(file, LayoutOf(cfg)), LayoutOf(cfg);
             && (forall n :: 0 <= n < |lines| && |lines[n]| > PIECE_MAX ==> KeepsSection(lines[n], layout))
             && k < |lines| && |lines[k]| > PIECE_MAX
             && !Survives(lines[k], layout.updates(SectionAt(lines, k, NoSection, layout)))
    ensures var layout := LayoutOf(cfg);
            && Rewritten(Rewritten(file, layout), layout) != Rewritten(file, layout)
            && |Pieces(Rewritten(file, layout))| > |Pieces(file)|
  {
    ConfigUpdateTwice(file, cfg);
    PlainConfig(cfg);
    SecondCallReadsTheLinesIffTheyFit(file, LayoutOf(cfg));
  }

  lemma {:induction false} PortFileIsUpdated(header: string, cfg: Config, value: string)
    requires IsHeader(header) && cfg.port < 0x1_0000 && Updates(cfg, Network) == TwoOfNetwork(value, cfg.port)
    ensures var layout, file := LayoutOf(cfg), header + PortLine("1 ");
            && Whole(Pieces(file)) && Fit(Pieces(file)) && TameFile(Pieces(file), NoSection, layout)
            && Updated(file, layout) == PortFile(header, NewMiddle(cfg.port))
            && SectionAt(Updated(file, layout), 1, NoSection, layout) == Network
  {
    NewMiddleIs(cfg.port);
    PortFileIsRead(header, "1 ");
    PortFileIsTame(header, value, cfg.port, LayoutOf(cfg));
  }

  lemma {:induction false} NewFileKeepsSection(header: string, n: nat, layout: Layout)
    requires IsHeader(header) && n < 0x1_0000 && layout.markers == MARKERS
    ensures var lines := PortFile(header, NewMiddle(n));
            forall k :: 0 <= k < |lines| && |lines[k]| > PIECE_MAX ==> KeepsSection(lines[k], layout)
  {
    NewMiddleIs(n);
    PortLineUnmarked(NewMiddle(n));
    UnmarkedKeepsSection(PortLine(NewMiddle(n)), layout);
  }

  /**
   For every configuration with an interface name without 'p' and a port, but no broadcast address: a file of two tame
   lines that fit the buffer, the first of them "network:". The first call moves a comment, the second one finds a key
   in what has moved out of the buffer.
   */
  lemma {:induction false} MovedCommentIsUpdated(header: string, cfg: Config)
    requires IsHeader(header) && cfg.interfaceName != "" && IsPlain(cfg.interfaceName) && 'p' !in cfg.interfaceName
    requires 0 < cfg.port < 0x1_0000 && cfg.broadcastAddress == ""
    ensures var layout, file := LayoutOf(cfg), header + PortLine("1 ");
            && Whole(Pieces(file)) && Fit(Pieces(file)) && TameFile(Pieces(file), NoSection, layout)
            && Rewritten(Rewritten(file, layout), layout) != Rewritten(file, layout)
            && |Pieces(Rewritten(file, layout))| > |Pieces(file)|
  {
    var value := "\"" + cfg.interfaceName + "\"";
    assert Updates(cfg, Network) == TwoOfNetwork(value, cfg.port);
    PortFileIsUpdated(header, cfg, value);
    NewFileKeepsSection(header, cfg.port, LayoutOf(cfg));
    NewLineIsCut(value, cfg.port);
    CutLineIsRewritten(header + PortLine("1 "), cfg, 1);
  }
}
