/** `update_line` of `config_update`: replacing the value of one key in one line, as a lens. */
module ConfigLine {
  import opened Prelude
  import opened Text

  const COMMENT_COLUMN: nat := 35

  // ---------------------------------------------------------------------------------------------
  // Parsing: where the key's colon is, and what stands from there on

  /** The position of the colon right after the first occurrence of the key, if there is one. */
  function Locate(line: string, key: string): (r: Option<nat>)
    ensures r.Some? ==> |key| <= r.value < |line| && line[r.value] == ':' && Find(line, key) == Some(r.value - |key|)
  {
    match Find(line, key)
    case None => None
    case Some(pos) => if pos + |key| < |line| && line[pos + |key|] == ':' then Some(pos + |key|) else None
  }

  /** From the colon on: colons and blanks, the value, and from '#' on the comment. */
  datatype Field = Field(gap: string, value: string, comment: string)

  function Joined(f: Field): string {
    f.gap + f.value + f.comment
  }

  ghost predicate WellFormed(f: Field) {
    && (forall i :: 0 <= i < |f.gap| ==> IsGap(f.gap[i]))
    && (f.value != "" ==> !IsGap(f.value[0]))
    && (forall i :: 0 <= i < |f.value| ==> f.value[i] != '#')
    && (f.comment != "" ==> f.comment[0] == '#')
    && |f.value| + |f.comment| > 0
  }

  function Split(rest: string): (r: Option<Field>)
    ensures r.Some? ==> Joined(r.value) == rest
  {
    match FindNotGap(rest)
    case None => None
    case Some(start) =>
      match FindHash(rest[start..])
      case Some(end) => Some(Field(rest[..start], rest[start..start + end], rest[start + end..]))
      case None => Some(Field(rest[..start], rest[start..], ""))
  }

  lemma {:induction false} SplitSound(rest: string)
    ensures match Split(rest)
            case Some(f) => WellFormed(f)
            case None => forall i :: 0 <= i < |rest| ==> IsGap(rest[i])
  {
    FindNotGapIsFirst(rest);
    match FindNotGap(rest)
    case None =>
    case Some(start) => SplitSoundAt(rest, start);
  }

  lemma {:induction false} SplitSoundAt(rest: string, start: nat)
    requires FindNotGap(rest) == Some(start) && start < |rest|
    requires (forall i :: 0 <= i < start ==> IsGap(rest[i])) && !IsGap(rest[start])
    ensures Split(rest).Some? && WellFormed(Split(rest).value)
  {
    var tail := rest[start..];
    TailSound(rest[..start], tail);
    match FindHash(tail)
    case None =>
    case Some(end) => assert tail[..end] == rest[start..start + end] && tail[end..] == rest[start + end..];
  }

  /** What follows the gap is a value and a comment. */
  lemma {:induction false} TailSound(gap: string, tail: string)
    requires (forall i :: 0 <= i < |gap| ==> IsGap(gap[i])) && tail != "" && !IsGap(tail[0])
    ensures match FindHash(tail)
            case Some(end) => WellFormed(Field(gap, tail[..end], tail[end..]))
            case None => WellFormed(Field(gap, tail, ""))
  {
    FindHashIsFirst(tail);
  }

  /** The parts are unique. */
  lemma {:induction false} SplitUnique(f: Field)
    requires WellFormed(f)
    ensures Split(Joined(f)) == Some(f)
  {
    var rest, tail := Joined(f), f.value + f.comment;
    assert tail[0] == if f.value != "" then f.value[0] else f.comment[0];
    assert rest == f.gap + tail;
    GapEnds(f.gap, tail);
    HashFound(f.value, f.comment);
    ThreeParts(f.gap, f.value, f.comment);
  }

  lemma {:induction false} ThreeParts(a: string, b: string, c: string)
    ensures var s := a + b + c;
            && s == a + (b + c) && s[..|a|] == a && s[|a|..] == b + c
            && s[|a|..|a| + |b|] == b && s[|a| + |b|..] == c
  {
  }

  lemma {:induction false} GapEnds(gap: string, tail: string)
    requires (forall i :: 0 <= i < |gap| ==> IsGap(gap[i])) && tail != "" && !IsGap(tail[0])
    ensures FindNotGap(gap + tail) == Some(|gap|)
  {
    var rest := gap + tail;
    assert forall i :: 0 <= i < |gap| ==> rest[i] == gap[i];
    assert rest[|gap|] == tail[0];
    FindNotGapIsFirst(rest);
  }

  lemma {:induction false} HashFound(value: string, comment: string)
    requires (forall i :: 0 <= i < |value| ==> value[i] != '#') && (comment != "" ==> comment[0] == '#')
    ensures FindHash(value + comment) == if comment != "" then Some(|value|) else None
  {
    var s := value + comment;
    assert forall i :: 0 <= i < |value| ==> s[i] == value[i];
    assert comment != "" ==> s[|value|] == comment[0];
    FindHashIsFirst(s);
  }

  /** What stands from the colon on, if `update_line` can handle the line. */
  function Parse(line: string, key: string): Option<Field> {
    match Locate(line, key)
    case None => None
    case Some(colon) => Split(line[colon..])
  }

  // ---------------------------------------------------------------------------------------------
  // The update

  /** Comments move to a fixed column, or two blanks after a long value. */
  function Tail(length: nat, comment: string): string {
    if comment == "" then "\n" else Padding(length) + comment
  }

  function Padding(length: nat): (s: string)
    ensures s != "" && forall i :: 0 <= i < |s| ==> s[i] == ' '
  {
    if length < COMMENT_COLUMN then Spaces(COMMENT_COLUMN - length) else "  "
  }

  /** What stands from the colon at position `colon` on, after an update. */
  function NewRest(colon: nat, value: string, comment: string): string {
    ": " + value + Tail(colon + 2 + |value|, comment)
  }

  /** The updated line, or None when the line does not hold the key. */
  function Put(line: string, key: string, value: string): Option<string> {
    match Parse(line, key)
    case None => None
    case Some(f) =>
      var colon := Locate(line, key).value;
      Some(line[..colon] + NewRest(colon, value, f.comment))
  }

  /** The value of the key in a line, without trailing blanks. */
  function Get(line: string, key: string): Option<string> {
    match Parse(line, key)
    case None => None
    case Some(f) => Some(TrimRight(f.value))
  }

  lemma {:induction false} NoKeyNoParse(line: string, key: string)
    requires Find(line, key).None?
    ensures Parse(line, key).None?
  {
  }

  lemma {:induction false} NoColonNoParse(line: string, key: string, pos: nat)
    requires Find(line, key) == Some(pos) && (pos + |key| >= |line| || line[pos + |key|] != ':')
    ensures Parse(line, key).None?
  {
  }

  lemma {:induction false} NothingNoParse(line: string, key: string, pos: nat)
    requires Find(line, key) == Some(pos) && pos + |key| < |line| && line[pos + |key|] == ':'
    requires FindNotGap(line[pos + |key|..]).None?
    ensures Parse(line, key).None?
  {
    LocateIs(line, key, pos);
    assert Split(line[pos + |key|..]).None?;
  }

  lemma {:induction false} NoParseNoPut(line: string, key: string, value: string)
    ensures Parse(line, key).None? ==> Put(line, key, value).None?
  {
  }

  method UpdateLine(line: string, key: string, newValue: string) returns (ok: bool, newLine: string)
    ensures match Put(line, key, newValue)
            case Some(updated) => ok && newLine == updated
            case None => !ok && newLine == line
  {
    newLine := line;
    NoParseNoPut(line, key, newValue);
    var pos := Find(line, key);
    if pos.None? {
      NoKeyNoParse(line, key);
      return false, line;
    }
    var colonPos := pos.value + |key|;
    if colonPos >= |line| || line[colonPos] != ':' {
      NoColonNoParse(line, key, pos.value);
      return false, line;
    }
    var valueStart := FindNotGap(line[colonPos..]);
    if valueStart.None? {
      NothingNoParse(line, key, pos.value);
      return false, line;
    }
    newLine := NewLine(line, key, newValue, pos.value, valueStart.value);
    ok := true;
  }

  /** The new line, when the key and its value or comment have been found. */
  method NewLine(line: string, key: string, newValue: string, pos: nat, valueStart: nat) returns (newLine: string)
    requires Find(line, key) == Some(pos) && pos + |key| < |line| && line[pos + |key|] == ':'
    requires FindNotGap(line[pos + |key|..]) == Some(valueStart)
    ensures Put(line, key, newValue) == Some(newLine)
  {
    var value := line[pos + |key|..][valueStart..];
    var commentPos := FindHash(value);
    var comment := if commentPos.Some? then value[commentPos.value..] else "";
    FoundIsPut(line, key, newValue, pos, valueStart);
    newLine := Build(line[..pos] + key + ": " + newValue, comment);
  }

  /** The comment of what stands from the value on. */
  function CommentOf(value: string): string {
    match FindHash(value)
    case Some(hash) => value[hash..]
    case None => ""
  }

  lemma {:induction false} FoundIsPut(line: string, key: string, value: string, pos: nat, start: nat)
    requires Find(line, key) == Some(pos) && pos + |key| < |line| && line[pos + |key|] == ':'
    requires FindNotGap(line[pos + |key|..]) == Some(start)
    ensures var head := line[..pos] + key + ": " + value;
            Put(line, key, value) == Some(head + Tail(|head|, CommentOf(line[pos + |key|..][start..])))
  {
    ParseParts(line, key, pos, start);
    BuildIsPut(line, key, value, pos, CommentOf(line[pos + |key|..][start..]));
  }

  lemma {:induction false} ParseParts(line: string, key: string, pos: nat, start: nat)
    requires Find(line, key) == Some(pos) && pos + |key| < |line| && line[pos + |key|] == ':'
    requires FindNotGap(line[pos + |key|..]) == Some(start)
    ensures Locate(line, key) == Some(pos + |key|) && Parse(line, key).Some?
    ensures Parse(line, key).value.comment == CommentOf(line[pos + |key|..][start..])
  {
    LocateIs(line, key, pos);
    SplitParts(line[pos + |key|..], start);
  }

  lemma {:induction false} LocateIs(line: string, k: string, pos: nat)
    requires Find(line, k) == Some(pos) && pos + |k| < |line| && line[pos + |k|] == ':'
    ensures Locate(line, k) == Some(pos + |k|)
  {
  }

  lemma {:induction false} SplitParts(rest: string, start: nat)
    requires FindNotGap(rest) == Some(start)
    ensures Split(rest).Some? && Split(rest).value.comment == CommentOf(rest[start..])
  {
    if hash :| FindHash(rest[start..]) == Some(hash) {
      assert rest[start..][hash..] == rest[start + hash..];
    }
  }

  lemma {:induction false} FoundAt(line: string, key: string, pos: nat)
    requires Find(line, key) == Some(pos)
    ensures At(line, key, pos)
  {
    FindIsFirst(line, key);
  }

  lemma {:induction false} BuildIsPut(line: string, key: string, value: string, pos: nat, comment: string)
    requires Find(line, key) == Some(pos) && Locate(line, key) == Some(pos + |key|)
    requires Parse(line, key).Some? && Parse(line, key).value.comment == comment
    ensures var head := line[..pos] + key + ": " + value;
            Put(line, key, value) == Some(head + Tail(|head|, comment))
  {
    FoundAt(line, key, pos);
    KeyJoins(line, key, pos);
    PutOf(line, key, value);
    NewRestJoins(line[..pos + |key|], value, comment);
  }

  lemma {:induction false} NewRestJoins(prefix: string, value: string, comment: string)
    ensures var head := prefix + ": " + value;
            prefix + NewRest(|prefix|, value, comment) == head + Tail(|head|, comment)
  {
    Joins(prefix, value, Tail(|prefix| + 2 + |value|, comment));
  }

  lemma {:induction false} KeyJoins(line: string, key: string, pos: nat)
    requires At(line, key, pos)
    ensures line[..pos] + key == line[..pos + |key|]
  {
    assert forall j :: pos <= j < pos + |key| ==> line[j] == key[j - pos];
  }

  /** The end of the new line: the comment at its column, or the end of line. */
  method Build(head: string, comment: string) returns (newLine: string)
    ensures newLine == head + Tail(|head|, comment)
  {
    newLine := head;
    if comment != "" {
      if |newLine| < COMMENT_COLUMN {
        newLine := newLine + Spaces(COMMENT_COLUMN - |newLine|);
      } else {
        newLine := newLine + "  ";
      }
      newLine := newLine + comment;
    } else {
      newLine := newLine + "\n";
    }
    assert newLine == head + Tail(|head|, comment);
  }

  lemma {:induction false} Joins(prefix: string, value: string, tail: string)
    ensures prefix + ": " + value + tail == prefix + (": " + value + tail)
  {
  }

  // ---------------------------------------------------------------------------------------------
  // Lens laws

  /** The key stays where it is when what follows it changes and still begins with a colon. */
  lemma {:induction false} LocateKept(line: string, key: string, rest: string)
    requires Locate(line, key).Some? && rest != "" && rest[0] == ':'
    ensures var colon := Locate(line, key).value;
            Locate(line[..colon] + rest, key) == Some(colon)
  {
    var colon := Locate(line, key).value;
    var line' := line[..colon] + rest;
    var pos := colon - |key|;
    FindIsFirst(line, key);
    assert forall j :: 0 <= j < colon ==> line'[j] == line[j];
    forall i | 0 <= i <= pos
      ensures At(line', key, i) == At(line, key, i)
    {
      AtAgree(line', i, line, i, key);
    }
    FindFirst(line', key, pos);
  }

  /** Put leaves the line before the colon and the place of the key alone. */
  lemma {:induction false} PutParse(line: string, key: string, value: string)
    requires Parse(line, key).Some?
    ensures var colon, comment := Locate(line, key).value, Parse(line, key).value.comment;
            var line' := Put(line, key, value).value;
            && Locate(line', key) == Some(colon) && line'[..colon] == line[..colon]
            && Parse(line', key) == Split(NewRest(colon, value, comment))
  {
    var colon, comment := Locate(line, key).value, Parse(line, key).value.comment;
    var rest := NewRest(colon, value, comment);
    LocateKept(line, key, rest);
    var line' := line[..colon] + rest;
    assert line'[colon..] == rest && line'[..colon] == line[..colon];
  }

  /**
   The layout of an updated line: the value after a colon and a blank, and the comment in column 35, or behind two
   blanks when the value reaches that far; without a comment the line ends behind the value.
   */
  lemma {:induction false} UpdatedLayout(line: string, key: string, value: string)
    requires Parse(line, key).Some?
    ensures var colon, comment := Locate(line, key).value, Parse(line, key).value.comment;
            var line' := Put(line, key, value).value;
            var end := colon + 2 + |value|;
            var start := if comment == "" then end else if end < 35 then 35 else end + 2;
            && end <= start <= |line'| && line'[..end] == line[..colon] + ": " + value
            && (forall i :: end <= i < start ==> line'[i] == ' ')
            && line'[start..] == if comment == "" then "\n" else comment
  {
    var colon, comment := Locate(line, key).value, Parse(line, key).value.comment;
    LayoutParts(line[..colon] + ": " + value, comment);
    NewRestJoins(line[..colon], value, comment);
  }

  lemma {:induction false} LayoutParts(head: string, comment: string)
    ensures var line := head + Tail(|head|, comment);
            var start := if comment == "" then |head| else if |head| < 35 then 35 else |head| + 2;
            && |head| <= start <= |line| && line[..|head|] == head
            && (forall i :: |head| <= i < start ==> line[i] == ' ')
            && line[start..] == if comment == "" then "\n" else comment
  {
    if comment != "" {
      var line, pad := head + (Padding(|head|) + comment), Padding(|head|);
      assert |pad| == (if |head| < 35 then 35 - |head| else 2);
      assert line[|head|..] == pad + comment;
      assert forall i :: |head| <= i < |head| + |pad| ==> line[i] == pad[i - |head|];
    }
  }

  predicate IsComment(comment: string) {
    comment != "" ==> comment[0] == '#'
  }

  lemma {:induction false} CommentFound(line: string, key: string)
    requires Parse(line, key).Some?
    ensures IsComment(Parse(line, key).value.comment)
  {
    SplitSound(line[Locate(line, key).value..]);
  }

  lemma {:induction false} PutOf(line: string, key: string, value: string)
    requires Parse(line, key).Some?
    ensures IsComment(Parse(line, key).value.comment)
    ensures var prefix := line[..Locate(line, key).value];
            |prefix| == Locate(line, key).value
            && Put(line, key, value) == Some(prefix + NewRest(|prefix|, value, Parse(line, key).value.comment))
  {
    CommentFound(line, key);
  }

  lemma {:induction false} SplitsIff(rest: string)
    ensures Split(rest).Some? <==> exists i :: 0 <= i < |rest| && !IsGap(rest[i])
  {
    SplitSound(rest);
    if Split(rest).Some? {
      FindNotGapIsFirst(rest);
    }
  }

  /** There is always something to find in the new rest: the comment or the end of line. */
  lemma {:induction false} NewRestSplits(colon: nat, value: string, comment: string)
    requires IsComment(comment)
    ensures var f := Split(NewRest(colon, value, comment));
            f.Some? && WellFormed(f.value)
  {
    var rest := NewRest(colon, value, comment);
    SplitSound(rest);
    if comment == "" {
      assert rest[|rest| - 1] == '\n';
    } else {
      assert rest[|rest| - |comment|] == comment[0];
    }
  }

  lemma {:induction false} NoHashBeforeComment(f: Field)
    requires WellFormed(f)
    ensures forall i :: 0 <= i < |f.gap| + |f.value| ==> Joined(f)[i] != '#'
  {
    forall i | 0 <= i < |f.gap| + |f.value|
      ensures Joined(f)[i] != '#'
    {
      assert Joined(f)[i] == if i < |f.gap| then f.gap[i] else f.value[i - |f.gap|];
    }
  }

  lemma {:induction false} HashAfter(text: string, comment: string, f: Field)
    requires IsComment(comment)
    requires forall i :: 0 <= i < |text| ==> text[i] != '#'
    requires WellFormed(f) && Joined(f) == text + comment
    ensures f.comment == comment
  {
    NoHashBeforeComment(f);
    var rest, end := text + comment, |f.gap| + |f.value|;
    assert comment != "" ==> rest[|text|] == '#';
    assert f.comment != "" ==> rest[end] == '#';
    assert rest[end..] == f.comment;
    assert rest[|text|..] == comment;
  }

  function Pad(length: nat, comment: string): (pad: string)
    ensures pad != "" && (forall j :: 0 <= j < |pad| ==> IsBlank(pad[j])) && (comment == "" ==> Last(pad) == '\n')
    ensures '#' !in pad && Tail(length, comment) == pad + comment
  {
    if comment == "" then "\n" else Padding(length)
  }

  /** A text without '#', from a colon on, and with the end of the line if no comment follows. */
  predicate IsText(text: string, comment: string) {
    text != "" && text[0] == ':' && '#' !in text && (comment == "" ==> Last(text) == '\n')
  }

  lemma {:induction false} LastOfPad(a: string, pad: string)
    requires pad != ""
    ensures Last(a + pad) == Last(pad)
  {
  }

  lemma {:induction false} NewText(value: string, comment: string, n: nat)
    requires '#' !in value
    ensures var text := ": " + value + Pad(n + 2 + |value|, comment);
            && IsText(text, comment) && ": " + value + (Pad(n + 2 + |value|, comment) + comment) == text + comment
            && NewRest(n, value, comment) == text + comment
  {
    LastOfPad(": " + value, Pad(n + 2 + |value|, comment));
  }

  lemma {:induction false} CommentBehind(text: string, comment: string)
    requires IsComment(comment) && '#' !in text && text != "" && (comment == "" ==> Last(text) == '\n')
    ensures Split(text + comment).Some? && Split(text + comment).value.comment == comment
  {
    var rest := text + comment;
    assert comment != "" ==> rest[|text|] == '#';
    assert comment == "" ==> rest[|rest| - 1] == '\n';
    SplitsIff(rest);
    SplitSound(rest);
    HashAfter(text, comment, Split(rest).value);
  }

  /** With a value free of '#' the comment survives byte for byte. */
  lemma {:induction false} CommentKept(colon: nat, value: string, comment: string)
    requires IsComment(comment) && '#' !in value
    ensures var f := Split(NewRest(colon, value, comment));
            f.Some? && f.value.comment == comment
  {
    NewText(value, comment, colon);
    CommentBehind(": " + value + Pad(colon + 2 + |value|, comment), comment);
  }

  /** A '#' in the value makes the rest of the value part of the comment. */
  lemma {:induction false} CommentGrows(colon: nat, value: string, comment: string)
    requires IsComment(comment) && '#' in value
    ensures var f := Split(NewRest(colon, value, comment));
            f.Some? && |f.value.comment| > |comment|
  {
    NewRestSplits(colon, value, comment);
    var rest := NewRest(colon, value, comment);
    var f := Split(rest).value;
    var i :| 0 <= i < |value| && value[i] == '#';
    NoHashBeforeComment(f);
    assert rest[2 + i] == '#';
    assert |f.comment| == |rest| - |f.gap| - |f.value| >= |rest| - 2 - i;
  }

  /**
   Put then put: the second update gives what it would have given alone, for every second value,
   exactly when the first value holds no '#'. So repeating such an update is a no-op.
   */
  lemma {:induction false} PutPut(line: string, key: string, first: string, second: string)
    requires Parse(line, key).Some?
    ensures Put(Put(line, key, first).value, key, second) == Put(line, key, second) <==> '#' !in first
  {
    var colon, comment := Locate(line, key).value, Parse(line, key).value.comment;
    CommentFound(line, key);
    NewRestSplits(colon, first, comment);
    var found := Split(NewRest(colon, first, comment)).value.comment;
    SecondPut(line, key, first, second, found);
    if '#' !in first {
      CommentKept(colon, first, comment);
    } else {
      CommentGrows(colon, first, comment);
      RestGrows(line[..colon], second, comment, found);
    }
  }

  lemma {:induction false} SecondPut(line: string, key: string, first: string, second: string, found: string)
    requires Parse(line, key).Some?
    requires var f := Split(NewRest(Locate(line, key).value, first, Parse(line, key).value.comment));
             f.Some? && f.value.comment == found
    ensures Put(Put(line, key, first).value, key, second)
         == Some(line[..Locate(line, key).value] + NewRest(Locate(line, key).value, second, found))
  {
    PutParse(line, key, first);
  }

  lemma {:induction false} RestGrows(prefix: string, value: string, comment: string, grown: string)
    requires |grown| > |comment|
    ensures |prefix + NewRest(|prefix|, value, grown)| > |prefix + NewRest(|prefix|, value, comment)|
  {
  }

  /** Everything up to the key's end survives, and with a value free of '#' the comment does. */
  lemma {:induction false} IndentAndCommentSurvive(line: string, key: string, value: string)
    requires Parse(line, key).Some?
    ensures var colon, line' := Locate(line, key).value, Put(line, key, value).value;
            line'[..colon] == line[..colon] && Locate(line', key) == Some(colon)
    ensures '#' !in value ==>
              var f := Parse(Put(line, key, value).value, key);
              f.Some? && f.value.comment == Parse(line, key).value.comment
  {
    PutParse(line, key, value);
    CommentFound(line, key);
    if '#' !in value {
      CommentKept(Locate(line, key).value, value, Parse(line, key).value.comment);
    }
  }

  /** Values that survive the trip through a line. */
  predicate ReadsBack(value: string) {
    '#' !in value && (value != "" ==> !IsGap(value[0]) && !IsBlank(value[|value| - 1]))
  }

  /**
   Put then get: the written value reads back exactly when it holds no '#', does not start with ':', blank
   or tab, and does not end in a blank.
   */
  lemma {:induction false} PutGet(line: string, key: string, value: string)
    requires Parse(line, key).Some?
    ensures Get(Put(line, key, value).value, key) == Some(value) <==> ReadsBack(value)
  {
    var colon, comment := Locate(line, key).value, Parse(line, key).value.comment;
    PutParse(line, key, value);
    CommentFound(line, key);
    NewRestSplits(colon, value, comment);
    if ReadsBack(value) {
      ReadsBackClean(colon, value, comment);
    } else {
      TrimmedReadsBack(Split(NewRest(colon, value, comment)).value);
    }
  }

  lemma {:induction false} TrimmedReadsBack(f: Field)
    requires WellFormed(f)
    ensures ReadsBack(TrimRight(f.value))
  {
  }

  lemma {:induction false} ReadsBackClean(colon: nat, value: string, comment: string)
    requires IsComment(comment) && ReadsBack(value)
    ensures var f := Split(NewRest(colon, value, comment));
            f.Some? && TrimRight(f.value.value) == value
  {
    var pad := if comment == "" then "\n" else Padding(colon + 2 + |value|);
    assert NewRest(colon, value, comment) == ": " + value + (pad + comment);
    PaddedReadsBack(": ", value, pad, comment);
  }

  lemma {:induction false} PaddedReadsBack(gap: string, value: string, pad: string, comment: string)
    requires IsComment(comment) && ReadsBack(value) && pad != ""
    requires forall i :: 0 <= i < |gap| ==> IsGap(gap[i])
    requires (comment == "" ==> pad == "\n") && (comment != "" ==> forall i :: 0 <= i < |pad| ==> pad[i] == ' ')
    ensures var f := Split(gap + value + (pad + comment));
            f.Some? && TrimRight(f.value.value) == value
  {
    if value == "" && comment != "" {
      var f := Field(gap + pad, "", comment);
      assert Joined(f) == gap + value + (pad + comment);
      SplitUnique(f);
    } else {
      var f := Field(gap, value + pad, comment);
      assert Joined(f) == gap + value + (pad + comment);
      SplitUnique(f);
      Trimmed(value, pad);
    }
  }

  lemma {:induction false} Trimmed(value: string, pad: string)
    requires value != "" ==> !IsBlank(value[|value| - 1])
    requires forall i :: 0 <= i < |pad| ==> IsBlank(pad[i])
    ensures TrimRight(value + pad) == value
  {
    var s := value + pad;
    if pad == "" {
      assert s == value;
    } else {
      assert s[..|s| - 1] == value + pad[..|pad| - 1];
      Trimmed(value, pad[..|pad| - 1]);
    }
  }
}
