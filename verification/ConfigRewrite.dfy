/**
 `config_update` on the file: it is read in pieces of at most 511 characters, and what a second call reads is what the
 first one wrote.
 */
module ConfigRewrite {
  import opened Prelude
  import opened Text
  import opened BacnetConfig
  import opened ConfigLine
  import opened ConfigFile

  /** What `fgets` stores in a buffer of 512 characters. */
  const PIECE_MAX: nat := 511

  // ---------------------------------------------------------------------------------------------
  // Reading and writing

  /** How many characters `fgets` takes when it has room for `room`: up to the first line break and with it. */
  function Taken(s: string, room: nat): (n: nat)
    ensures n <= |s| && n <= room && (s != "" && room > 0 ==> n > 0)
    decreases room
  {
    if s == "" || room == 0 then 0
    else if s[0] == '\n' then 1
    else 1 + Taken(s[1..], room - 1)
  }

  predicate NoBreak(s: string) {
    '\n' !in s
  }

  /** It stops at a line break, at the end of the text or with no room left, and nowhere else. */
  lemma {:induction false} TakenStops(s: string, room: nat, n: nat)
    requires 0 < n <= |s| && n <= room
    ensures Taken(s, room) == n <==> NoBreak(s[..n - 1]) && (n == |s| || n == room || s[n - 1] == '\n')
  {
    var rest := s[1..];
    if s[0] == '\n' {
      assert n > 1 ==> s[..n - 1][0] == '\n';
    } else if n == 1 {
      assert rest != "" && room > 1 ==> Taken(rest, room - 1) > 0;
    } else {
      TakenStops(rest, room - 1, n - 1);
      assert s[..n - 1] == [s[0]] + rest[..n - 2];
    }
  }

  /** The pieces in which a file is read; each ends, as a C string, at a NUL. */
  function Pieces(file: string): seq<string>
    decreases |file|
  {
    if file == "" then []
    else
      var n := Taken(file, PIECE_MAX);
      [CStr(file[..n])] + Pieces(file[n..])
  }

  /** The text that is written. */
  function Written(lines: seq<string>): string {
    if lines == [] then "" else lines[0] + Written(lines[1..])
  }

  function Updated(file: string, layout: Layout): seq<string> {
    UpdateLines(Pieces(file), NoSection, layout)
  }

  /** The file after `config_update`. */
  function Rewritten(file: string, layout: Layout): string {
    Written(Updated(file, layout))
  }

  datatype Outcome = ParamError | InitError | WriteError | Success(file: string)

  /**
   Without a configuration or a file to read nothing is done; when the lock or the temporary file cannot be had, or
   the renaming fails, the file stays as it was.
   */
  method ConfigUpdate(cfg: Option<Config>, file: Option<string>, works: bool) returns (r: Outcome)
    ensures r == if cfg.None? then ParamError
                 else if file.None? then InitError
                 else if !works then WriteError
                 else Success(Rewritten(file.value, LayoutOf(cfg.value)))
  {
    if cfg.None? {
      return ParamError;
    }
    if file.None? {
      return InitError;
    }
    var pieces := ReadPieces(file.value);
    var lines := new string[|pieces|](n requires 0 <= n < |pieces| => pieces[n]);
    assert lines[..] == pieces;
    UpdateEveryLine(lines, LayoutOf(cfg.value));
    if !works {
      return WriteError;
    }
    var written := WriteLines(lines);
    return Success(written);
  }

  method ReadPieces(file: string) returns (lines: seq<string>)
    ensures lines == Pieces(file)
  {
    lines := [];
    var rest := file;
    while rest != ""
      invariant lines + Pieces(rest) == Pieces(file)
      decreases |rest|
    {
      var n := Taken(rest, PIECE_MAX);
      RegroupPiece(lines, CStr(rest[..n]), Pieces(rest[n..]));
      lines := lines + [CStr(rest[..n])];
      rest := rest[n..];
    }
  }

  lemma {:induction false} RegroupPiece(lines: seq<string>, piece: string, rest: seq<string>)
    ensures lines + ([piece] + rest) == (lines + [piece]) + rest
  {
  }

  method WriteLines(lines: array<string>) returns (written: string)
    ensures written == Written(lines[..])
  {
    written := "";
    var n := 0;
    while n < lines.Length
      invariant n <= lines.Length
      invariant written + Written(lines[n..]) == Written(lines[..])
    {
      assert lines[n..][1..] == lines[n + 1..];
      assert written + (lines[n] + Written(lines[n + 1..])) == (written + lines[n]) + Written(lines[n + 1..]);
      written := written + lines[n];
      n := n + 1;
    }
  }

  // ---------------------------------------------------------------------------------------------
  // What is read of what was written

  lemma {:induction false} CStrIsPrefix(s: string)
    ensures CStr(s) <= s && '\0' !in CStr(s) && (|CStr(s)| == |s| <==> '\0' !in s)
  {
    if s != "" {
      CStrIsPrefix(s[1..]);
      assert s == [s[0]] + s[1..];
    }
  }

  lemma {:induction false} FirstPiece(file: string)
    requires file != ""
    ensures var n := Taken(file, PIECE_MAX);
            && n > 0 && file == file[..n] + file[n..]
            && Pieces(file) == [CStr(file[..n])] + Pieces(file[n..])
            && Written(Pieces(file)) == CStr(file[..n]) + Written(Pieces(file[n..]))
  {
    assert Pieces(file)[1..] == Pieces(file[Taken(file, PIECE_MAX)..]);
  }

  lemma {:induction false} NulsAreLost(a: string, b: string, a': string, b': string)
    requires a' <= a && |b'| <= |b| && (|a'| == |a| <==> '\0' !in a) && (|b'| == |b| <==> '\0' !in b)
    requires '\0' !in b ==> b' == b
    ensures |a' + b'| <= |a + b|
    ensures |a' + b'| == |a + b| <==> '\0' !in a + b
    ensures '\0' !in a + b ==> a' + b' == a + b
  {
  }

  lemma {:induction false} WrittenLength(file: string)
    ensures |Written(Pieces(file))| <= |file|
    ensures |Written(Pieces(file))| == |file| <==> '\0' !in file
    ensures '\0' !in file ==> Written(Pieces(file)) == file
    decreases |file|
  {
    if file != "" {
      FirstPiece(file);
      var n := Taken(file, PIECE_MAX);
      CStrIsPrefix(file[..n]);
      WrittenLength(file[n..]);
      NulsAreLost(file[..n], file[n..], CStr(file[..n]), Written(Pieces(file[n..])));
    }
  }

  /** Reading and writing gives the same file back if and only if it holds no NUL. */
  lemma {:induction false} OnlyNulsAreLost(file: string)
    ensures Written(Pieces(file)) == file <==> '\0' !in file
  {
    WrittenLength(file);
  }

  /** A piece as `fgets` reads it; only the last one may end before a line break or the end of the buffer. */
  predicate IsPiece(s: string, last: bool) {
    && 0 < |s| <= PIECE_MAX && '\0' !in s && NoBreak(Front(s))
    && (last || |s| == PIECE_MAX || Last(s) == '\n')
  }

  /** The lines that a file can be read as. */
  predicate Readable(lines: seq<string>) {
    forall n :: 0 <= n < |lines| ==> IsPiece(lines[n], n == |lines| - 1)
  }

  lemma {:induction false} ReadLine(line: string, rest: string)
    requires IsPiece(line, rest == "")
    ensures Pieces(line + rest) == [line] + Pieces(rest)
  {
    var file, n := line + rest, |line|;
    assert file[..n] == line && file[n..] == rest && file[..n - 1] == Front(line);
    assert file[n - 1] == Last(line);
    TakenStops(file, PIECE_MAX, n);
    CStrIsPrefix(line);
    assert CStr(line) == line;
    assert Taken(file, PIECE_MAX) == n;
    FirstPiece(file);
  }

  lemma {:induction false} ReadableIsRead(lines: seq<string>)
    requires Readable(lines)
    ensures Pieces(Written(lines)) == lines && (lines != [] ==> Written(lines) != "")
  {
    if lines != [] {
      assert IsPiece(lines[0], 0 == |lines| - 1);
      forall n | 0 <= n < |lines[1..]|
        ensures IsPiece(lines[1..][n], n == |lines[1..]| - 1)
      {
        assert IsPiece(lines[n + 1], n + 1 == |lines| - 1);
      }
      ReadableIsRead(lines[1..]);
      assert Written(lines[1..]) == "" <==> lines[1..] == [];
      ReadLine(lines[0], Written(lines[1..]));
      assert lines == [lines[0]] + lines[1..];
    }
  }

  lemma {:induction false} FirstIsPiece(file: string)
    requires file != "" && '\0' !in file
    ensures var n := Taken(file, PIECE_MAX);
            Pieces(file) != [] && Pieces(file)[0] == file[..n] && IsPiece(file[..n], file[n..] == "")
  {
    var n := Taken(file, PIECE_MAX);
    TakenStops(file, PIECE_MAX, n);
    CStrIsPrefix(file[..n]);
    assert Front(file[..n]) == file[..n - 1] && Last(file[..n]) == file[n - 1];
  }

  lemma {:induction false} PiecesAreReadable(file: string)
    requires '\0' !in file
    ensures Readable(Pieces(file)) && (file == "" <==> Pieces(file) == [])
    decreases |file|
  {
    if file != "" {
      var n := Taken(file, PIECE_MAX);
      FirstIsPiece(file);
      FirstPiece(file);
      PiecesAreReadable(file[n..]);
      var pieces, rest := Pieces(file), Pieces(file[n..]);
      forall k | 0 <= k < |pieces|
        ensures IsPiece(pieces[k], k == |pieces| - 1)
      {
        assert k > 0 ==> pieces[k] == rest[k - 1];
      }
    }
  }

  /** Lines that are written are read again as they are if and only if a file can be read as them. */
  lemma {:induction false} ReadBackIffReadable(lines: seq<string>)
    ensures Pieces(Written(lines)) == lines <==> Readable(lines)
  {
    var file := Written(lines);
    if Readable(lines) {
      ReadableIsRead(lines);
    } else if Pieces(file) == lines {
      WrittenLength(file);
      PiecesAreReadable(file);
    }
  }

  // ---------------------------------------------------------------------------------------------
  // Lines that end where they are read to end

  /** A line with its only line break, if any, at its end. */
  predicate IsLine(s: string, last: bool) {
    s != "" && '\0' !in s && NoBreak(Front(s)) && (last || Last(s) == '\n')
  }

  /** No line was cut by the buffer: each but the last ends with its only line break. */
  predicate Whole(lines: seq<string>) {
    forall n :: 0 <= n < |lines| ==> IsLine(lines[n], n == |lines| - 1)
  }

  lemma {:induction false} WholeTail(lines: seq<string>)
    requires lines != [] && Whole(lines)
    ensures IsLine(lines[0], lines[1..] == []) && Whole(lines[1..])
  {
    forall n | 0 <= n < |lines[1..]|
      ensures IsLine(lines[1..][n], n == |lines[1..]| - 1)
    {
      assert IsLine(lines[n + 1], n + 1 == |lines| - 1);
    }
  }

  predicate Fit(lines: seq<string>) {
    forall n :: 0 <= n < |lines| ==> |lines[n]| <= PIECE_MAX
  }

  /** Whole lines are read again as they are if and only if each has at most 511 characters. */
  lemma {:induction false} WholeIsReadIffFit(lines: seq<string>)
    requires Whole(lines)
    ensures Pieces(Written(lines)) == lines <==> Fit(lines)
  {
    ReadBackIffReadable(lines);
    if Fit(lines) {
      forall n | 0 <= n < |lines|
        ensures IsPiece(lines[n], n == |lines| - 1)
      {
        assert IsLine(lines[n], n == |lines| - 1);
      }
    } else {
      var n :| 0 <= n < |lines| && |lines[n]| > PIECE_MAX;
      assert !IsPiece(lines[n], n == |lines| - 1);
    }
  }

  lemma {:induction false} TakenWithin(line: string, rest: string)
    requires line != "" && Last(line) == '\n'
    ensures Taken(line + rest, PIECE_MAX) == Taken(line, PIECE_MAX)
  {
    var n, file := Taken(line, PIECE_MAX), line + rest;
    TakenStops(line, PIECE_MAX, n);
    assert file[..n - 1] == line[..n - 1];
    assert n == |line| ==> file[n - 1] == '\n';
    TakenStops(file, PIECE_MAX, n);
  }

  lemma {:induction false} CutWithin(line: string, rest: string, n: nat)
    requires 0 < n <= |line|
    ensures (line + rest)[..n] == line[..n] && (line + rest)[n..] == line[n..] + rest
    ensures line[n..] != "" ==> Last(line[n..]) == Last(line)
  {
  }

  lemma {:induction false} RegroupPieces(piece: string, some: seq<string>, rest: seq<string>)
    ensures [piece] + (some + rest) == ([piece] + some) + rest
  {
  }

  /** A line that ends with a line break is read by itself. */
  lemma {:induction false} PiecesAppend(line: string, rest: string)
    requires line != "" ==> Last(line) == '\n'
    ensures Pieces(line + rest) == Pieces(line) + Pieces(rest)
    decreases |line|
  {
    if line == "" {
      assert line + rest == rest;
    } else {
      var n := Taken(line, PIECE_MAX);
      TakenWithin(line, rest);
      FirstPiece(line);
      FirstPiece(line + rest);
      CutWithin(line, rest, n);
      PiecesAppend(line[n..], rest);
      RegroupPieces(CStr(line[..n]), Pieces(line[n..]), Pieces(rest));
    }
  }

  /** The pieces of each line, one line after the other. */
  function PiecesOfEach(lines: seq<string>): seq<string> {
    if lines == [] then [] else Pieces(lines[0]) + PiecesOfEach(lines[1..])
  }

  lemma {:induction false} PiecesOfWritten(lines: seq<string>)
    requires Whole(lines)
    ensures Pieces(Written(lines)) == PiecesOfEach(lines)
  {
    if lines != [] {
      WholeTail(lines);
      PiecesOfWritten(lines[1..]);
      if lines[1..] == [] {
        assert Written(lines[1..]) == "" && lines[0] + "" == lines[0];
      } else {
        PiecesAppend(lines[0], Written(lines[1..]));
      }
    }
  }

  lemma {:induction false} OnePieceIffFits(line: string)
    requires line != "" && NoBreak(Front(line))
    ensures |Pieces(line)| >= 1 && (|Pieces(line)| == 1 <==> |line| <= PIECE_MAX)
  {
    var n := Taken(line, PIECE_MAX);
    FirstPiece(line);
    TakenStops(line, PIECE_MAX, n);
    if n < |line| {
      assert line[n - 1] == Front(line)[n - 1];
      FirstPiece(line[n..]);
    }
  }

  lemma {:induction false} EachCounts(lines: seq<string>)
    requires Whole(lines)
    ensures |PiecesOfEach(lines)| >= |lines| && (|PiecesOfEach(lines)| == |lines| <==> Fit(lines))
  {
    if lines != [] {
      WholeTail(lines);
      OnePieceIffFits(lines[0]);
      EachCounts(lines[1..]);
      assert Fit(lines) <==> |lines[0]| <= PIECE_MAX && Fit(lines[1..]);
    }
  }

  // ---------------------------------------------------------------------------------------------
  // Updates of whole lines

  /** A C string without a line break. */
  predicate IsPlain(value: string) {
    NoBreak(value) && '\0' !in value
  }

  ghost predicate PlainValues(layout: Layout) {
    forall section :: PlainUpdates(layout.updates(section))
  }

  predicate PlainUpdates(ups: seq<Update>) {
    forall a :: 0 <= a < |ups| ==> IsPlain(ups[a].value)
  }

  lemma {:induction false} JoinedIsLine(head: string, tail: string, last: bool)
    requires IsPlain(head) && IsLine(tail, last)
    ensures IsLine(head + tail, last)
  {
    assert Front(head + tail) == head + Front(tail);
  }

  lemma {:induction false} EndIsLine(line: string, n: nat, last: bool)
    requires IsLine(line, last) && n < |line|
    ensures IsLine(line[n..], last) && IsPlain(line[..n])
  {
    assert line[..n] == Front(line)[..n];
    assert Front(line[n..]) == Front(line)[n..];
  }

  lemma {:induction false} CommentIsEnd(line: string, key: string)
    requires Parse(line, key).Some?
    ensures var colon, comment := Locate(line, key).value, Parse(line, key).value.comment;
            |comment| <= |line| - colon && line[|line| - |comment|..] == comment
  {
    var colon, f := Locate(line, key).value, Parse(line, key).value;
    assert line[colon..] == f.gap + f.value + f.comment;
  }

  lemma {:induction false} CommentIsLine(line: string, key: string, last: bool)
    requires Parse(line, key).Some? && IsLine(line, last)
    ensures IsPlain(line[..Locate(line, key).value])
    ensures var comment := Parse(line, key).value.comment;
            comment == "" || IsLine(comment, last)
  {
    var colon, comment := Locate(line, key).value, Parse(line, key).value.comment;
    CommentIsEnd(line, key);
    EndIsLine(line, colon, last);
    if comment != "" {
      EndIsLine(line, |line| - |comment|, last);
    }
  }

  lemma {:induction false} TailIsLine(length: nat, comment: string, last: bool)
    requires comment == "" || IsLine(comment, last)
    ensures IsLine(Tail(length, comment), last)
  {
    if comment != "" {
      JoinedIsLine(Padding(length), comment, last);
    }
  }

  lemma {:induction false} PutIsLine(line: string, key: string, value: string, last: bool)
    requires Parse(line, key).Some? && IsLine(line, last) && IsPlain(value)
    ensures IsLine(Put(line, key, value).value, last)
  {
    var colon, comment := Locate(line, key).value, Parse(line, key).value.comment;
    CommentIsLine(line, key, last);
    TailIsLine(colon + 2 + |value|, comment, last);
    PartsAreLine(line[..colon], value, Tail(colon + 2 + |value|, comment), last);
  }

  lemma {:induction false} PartsAreLine(prefix: string, value: string, tail: string, last: bool)
    requires IsPlain(prefix) && IsPlain(value) && IsLine(tail, last)
    ensures IsLine(prefix + (": " + value + tail), last)
  {
    JoinedIsLine(": " + value, tail, last);
    JoinedIsLine(prefix, ": " + value + tail, last);
  }

  lemma {:induction false} UpdatedIsLine(line: string, ups: seq<Update>, last: bool)
    requires IsLine(line, last) && PlainUpdates(ups)
    ensures IsLine(UpdateAll(line, ups), last)
    decreases |ups|
  {
    if ups != [] {
      if Parse(line, ups[0].key).Some? {
        PutIsLine(line, ups[0].key, ups[0].value, last);
      }
      UpdatedIsLine(UpdateOne(line, ups[0]), ups[1..], last);
    }
  }

  lemma {:induction false} UpdatedAreWhole(lines: seq<string>, current: Section, layout: Layout)
    requires Whole(lines) && PlainValues(layout)
    ensures Whole(UpdateLines(lines, current, layout))
  {
    var updated := UpdateLines(lines, current, layout);
    forall n | 0 <= n < |updated|
      ensures IsLine(updated[n], n == |updated| - 1)
    {
      LineAt(lines, current, layout, n);
      assert IsLine(lines[n], n == |lines| - 1);
      UpdatedIsLine(lines[n], layout.updates(SectionAt(lines, n, current, layout)), n == |lines| - 1);
    }
  }

  /**
   In a file whose lines are whole, the second call reads the lines that the first one wrote if and only if each of
   them has at most 511 characters; otherwise it reads more lines.
   */
  lemma {:induction false} SecondCallReadsTheLinesIffTheyFit(file: string, layout: Layout)
    requires Whole(Pieces(file)) && PlainValues(layout)
    ensures Pieces(Rewritten(file, layout)) == Updated(file, layout) <==> Fit(Updated(file, layout))
    ensures |Pieces(Rewritten(file, layout))| == |Pieces(file)| <==> Fit(Updated(file, layout))
    ensures |Pieces(Rewritten(file, layout))| >= |Pieces(file)|
  {
    var lines := Updated(file, layout);
    UpdatedAreWhole(Pieces(file), NoSection, layout);
    WholeIsReadIffFit(lines);
    PiecesOfWritten(lines);
    EachCounts(lines);
  }

  // ---------------------------------------------------------------------------------------------
  // The second call

  /** A file whose updated lines are read again as they are, and whose lines are tame, is rewritten only once. */
  lemma {:induction false} ReadableIsRewrittenOnce(file: string, layout: Layout)
    requires LayoutSound(layout) && TameFile(Pieces(file), NoSection, layout) && Readable(Updated(file, layout))
    ensures Rewritten(Rewritten(file, layout), layout) == Rewritten(file, layout)
  {
    ReadBackIffReadable(Updated(file, layout));
    UpdateTwice(Pieces(file), NoSection, layout);
  }

  /** The section that some lines lead to. */
  function SectionAfter(lines: seq<string>, current: Section, layout: Layout): Section {
    if lines == [] then current else SectionAfter(lines[1..], SectionOf(lines[0], current, layout.markers), layout)
  }

  lemma {:induction false} UpdateLinesAppend(some: seq<string>, more: seq<string>, current: Section, layout: Layout)
    ensures UpdateLines(some + more, current, layout)
         == UpdateLines(some, current, layout) + UpdateLines(more, SectionAfter(some, current, layout), layout)
    decreases |some|
  {
    if some == [] {
      assert some + more == more;
    } else {
      assert (some + more)[0] == some[0] && (some + more)[1..] == some[1..] + more;
      UpdateLinesAppend(some[1..], more, SectionOf(some[0], current, layout.markers), layout);
    }
  }

  lemma {:induction false} WrittenAppend(some: seq<string>, more: seq<string>)
    ensures Written(some + more) == Written(some) + Written(more)
    decreases |some|
  {
    if some == [] {
      assert some + more == more;
    } else {
      assert (some + more)[0] == some[0] && (some + more)[1..] == some[1..] + more;
      WrittenAppend(some[1..], more);
    }
  }

  /** Each piece of the line is updated in the section that the whole line leads to. */
  ghost predicate KeepsSection(line: string, layout: Layout) {
    forall current, k :: 0 <= k < |Pieces(line)| ==>
      SectionAt(Pieces(line), k, current, layout) == SectionOf(line, current, layout.markers)
  }

  lemma {:induction false} OnePiece(line: string, last: bool)
    requires IsLine(line, last) && |line| <= PIECE_MAX
    ensures Pieces(line) == [line]
  {
    OnePieceIffFits(line);
    WrittenLength(line);
    var piece := Pieces(line)[0];
    assert Pieces(line) == [piece] && piece + "" == piece;
    assert Written([piece]) == piece + Written([]);
  }

  lemma {:induction false} OnePieceKeepsSection(line: string, last: bool, layout: Layout)
    requires IsLine(line, last) && |line| <= PIECE_MAX
    ensures KeepsSection(line, layout)
  {
    OnePiece(line, last);
  }

  /** Some pieces, all of them updated in one section, as they are written. */
  function UpdatedText(pieces: seq<string>, ups: seq<Update>): string {
    if pieces == [] then "" else UpdateAll(pieces[0], ups) + UpdatedText(pieces[1..], ups)
  }

  lemma {:induction false} InOneSection(pieces: seq<string>, current: Section, section: Section, layout: Layout)
    requires forall k :: 0 <= k < |pieces| ==> SectionAt(pieces, k, current, layout) == section
    ensures Written(UpdateLines(pieces, current, layout)) == UpdatedText(pieces, layout.updates(section))
    ensures pieces != [] ==> SectionAfter(pieces, current, layout) == section
    decreases |pieces|
  {
    if pieces != [] {
      assert SectionAt(pieces, 0, current, layout) == section;
      forall k | 0 <= k < |pieces[1..]|
        ensures SectionAt(pieces[1..], k, section, layout) == section
      {
        assert SectionAt(pieces, k + 1, current, layout) == section;
      }
      InOneSection(pieces[1..], section, section, layout);
      var lines := UpdateLines(pieces, current, layout);
      assert lines[1..] == UpdateLines(pieces[1..], section, layout);
    }
  }

  /** What the second call makes of a line in a section. */
  function Reread(layout: Layout): (string, Section) -> string {
    (line, section) => UpdatedText(Pieces(line), layout.updates(section))
  }

  /** The second call takes the lines one by one. */
  lemma {:induction false} SecondCall(lines: seq<string>, current: Section, layout: Layout)
    requires Whole(lines) && forall n :: 0 <= n < |lines| ==> KeepsSection(lines[n], layout)
    ensures Written(UpdateLines(PiecesOfEach(lines), current, layout))
         == Written(MapLines(lines, current, layout, Reread(layout)))
    decreases |lines|
  {
    if lines != [] {
      WholeTail(lines);
      var line, rest, section := lines[0], lines[1..], SectionOf(lines[0], current, layout.markers);
      assert forall n :: 0 <= n < |rest| ==> rest[n] == lines[n + 1];
      assert Pieces(line) != [] by { FirstPiece(line); }
      assert KeepsSection(line, layout);
      InOneSection(Pieces(line), current, section, layout);
      SecondCall(rest, section, layout);
      UpdateLinesAppend(Pieces(line), PiecesOfEach(rest), current, layout);
      WrittenAppend(UpdateLines(Pieces(line), current, layout), UpdateLines(PiecesOfEach(rest), section, layout));
      var again := MapLines(lines, current, layout, Reread(layout));
      assert again[1..] == MapLines(rest, section, layout, Reread(layout));
    }
  }

  // ---------------------------------------------------------------------------------------------
  // Equal texts of lines

  function Breaks(s: string): nat {
    multiset(s)['\n']
  }

  lemma {:induction false} BreaksAppend(a: string, b: string)
    ensures Breaks(a + b) == Breaks(a) + Breaks(b)
  {
  }

  lemma {:induction false} BreaksOfLine(line: string, last: bool)
    requires IsLine(line, last)
    ensures Breaks(line) == if Last(line) == '\n' then 1 else 0
  {
    assert line == Front(line) + [Last(line)];
    BreaksAppend(Front(line), [Last(line)]);
  }

  /** What a line is replaced by ends with a line break if the line does. */
  predicate Ends(lines: seq<string>, others: seq<string>)
    requires |others| == |lines|
  {
    forall n :: 0 <= n < |lines| && lines[n] != "" && Last(lines[n]) == '\n' ==>
      others[n] != "" && Last(others[n]) == '\n'
  }

  lemma {:induction false} EndsTail(lines: seq<string>, others: seq<string>)
    requires lines != [] && |others| == |lines| && Ends(lines, others)
    ensures Ends(lines[1..], others[1..])
  {
    assert forall n :: 0 <= n < |lines[1..]| ==> lines[1..][n] == lines[n + 1] && others[1..][n] == others[n + 1];
  }

  lemma {:induction false} EndBreaks(s: string)
    requires s != "" && Last(s) == '\n'
    ensures Breaks(s) >= 1 && (Breaks(s) == 1 ==> NoBreak(Front(s)))
  {
    assert s == Front(s) + [Last(s)];
    BreaksAppend(Front(s), [Last(s)]);
  }

  lemma {:induction false} NoFewerBreaks(lines: seq<string>, others: seq<string>)
    requires Whole(lines) && |others| == |lines| && Ends(lines, others)
    ensures Breaks(Written(others)) >= Breaks(Written(lines))
    decreases |lines|
  {
    if lines != [] {
      WholeTail(lines);
      EndsTail(lines, others);
      NoFewerBreaks(lines[1..], others[1..]);
      BreaksOfLine(lines[0], lines[1..] == []);
      BreaksAppend(lines[0], Written(lines[1..]));
      BreaksAppend(others[0], Written(others[1..]));
      if Last(lines[0]) == '\n' {
        EndBreaks(others[0]);
      }
    }
  }

  lemma {:induction false} SameFirstLine(a: string, more: string, b: string, more': string)
    requires a != "" && Last(a) == '\n' && NoBreak(Front(a))
    requires b != "" && Last(b) == '\n' && NoBreak(Front(b))
    requires a + more == b + more'
    ensures a == b && more == more'
  {
    assert (a + more)[|a| - 1] == '\n' && (b + more')[|b| - 1] == '\n';
    assert |a| == |b|;
    assert (a + more)[..|a|] == a && (b + more')[..|b|] == b;
    assert (a + more)[|a|..] == more && (b + more')[|b|..] == more';
  }

  /** Whole lines replaced so give the same text only if each is replaced by itself. */
  lemma {:induction false} SameTextIffSameLines(lines: seq<string>, others: seq<string>)
    requires Whole(lines) && |others| == |lines| && Ends(lines, others)
    ensures Written(others) == Written(lines) <==> others == lines
    decreases |lines|
  {
    if lines != [] && Written(others) == Written(lines) {
      WholeTail(lines);
      EndsTail(lines, others);
      var rest, rest' := Written(lines[1..]), Written(others[1..]);
      if lines[1..] == [] {
        assert others[1..] == [] && lines[0] + "" == lines[0] && others[0] + "" == others[0];
      } else {
        NoFewerBreaks(lines[1..], others[1..]);
        BreaksOfLine(lines[0], false);
        EndBreaks(others[0]);
        BreaksAppend(lines[0], rest);
        BreaksAppend(others[0], rest');
        SameFirstLine(lines[0], rest, others[0], rest');
        SameTextIffSameLines(lines[1..], others[1..]);
      }
      assert lines == [lines[0]] + lines[1..] && others == [others[0]] + others[1..];
    }
  }

  // ---------------------------------------------------------------------------------------------
  // When the second call changes nothing

  lemma {:induction false} RestEnds(prefix: string, value: string, comment: string)
    requires comment != "" ==> Last(comment) == '\n'
    ensures var line := prefix + NewRest(|prefix|, value, comment);
            line != "" && Last(line) == '\n'
  {
    LastOfTwo(prefix, NewRest(|prefix|, value, comment));
    LastOfTwo(": " + value, Tail(|prefix| + 2 + |value|, comment));
    if comment != "" {
      LastOfTwo(Padding(|prefix| + 2 + |value|), comment);
    }
  }

  lemma {:induction false} PutEnds(line: string, key: string, value: string)
    requires Parse(line, key).Some? && Last(line) == '\n'
    ensures Put(line, key, value).value != "" && Last(Put(line, key, value).value) == '\n'
  {
    CommentEnds(line, key);
    PutOf(line, key, value);
    RestEnds(line[..Locate(line, key).value], value, Parse(line, key).value.comment);
  }

  lemma {:induction false} CommentEnds(line: string, key: string)
    requires Parse(line, key).Some?
    ensures var comment := Parse(line, key).value.comment;
            comment != "" ==> Last(comment) == Last(line)
  {
    CommentIsEnd(line, key);
  }

  lemma {:induction false} UpdateEnds(line: string, ups: seq<Update>)
    requires line != "" && Last(line) == '\n'
    ensures UpdateAll(line, ups) != "" && Last(UpdateAll(line, ups)) == '\n'
    decreases |ups|
  {
    if ups != [] {
      if Parse(line, ups[0].key).Some? {
        PutEnds(line, ups[0].key, ups[0].value);
      }
      UpdateEnds(UpdateOne(line, ups[0]), ups[1..]);
    }
  }

  lemma {:induction false} FirstUpdated(line: string, ups: seq<Update>)
    requires line != "" && '\0' !in line
    ensures var n := Taken(line, PIECE_MAX);
            UpdatedText(Pieces(line), ups) == UpdateAll(line[..n], ups) + UpdatedText(Pieces(line[n..]), ups)
  {
    var n := Taken(line, PIECE_MAX);
    FirstPiece(line);
    CStrIsPrefix(line[..n]);
    assert CStr(line[..n]) == line[..n];
    assert Pieces(line)[1..] == Pieces(line[n..]);
  }

  lemma {:induction false} LastOfTwo(a: string, b: string)
    requires b != ""
    ensures a + b != "" && Last(a + b) == Last(b)
  {
  }

  lemma {:induction false} RereadEnds(line: string, ups: seq<Update>)
    requires line != "" && Last(line) == '\n' && '\0' !in line
    ensures UpdatedText(Pieces(line), ups) != "" && Last(UpdatedText(Pieces(line), ups)) == '\n'
    decreases |line|
  {
    var n := Taken(line, PIECE_MAX);
    FirstUpdated(line, ups);
    if n < |line| {
      assert Last(line[n..]) == Last(line);
      RereadEnds(line[n..], ups);
      LastOfTwo(UpdateAll(line[..n], ups), UpdatedText(Pieces(line[n..]), ups));
    } else {
      assert line[n..] == "" && line[..n] == line;
      UpdateEnds(line, ups);
      assert UpdateAll(line, ups) + "" == UpdateAll(line, ups);
    }
  }

  /** A line that is read in pieces, updated and written again is as it was. */
  predicate Survives(line: string, ups: seq<Update>) {
    UpdatedText(Pieces(line), ups) == line
  }

  lemma {:induction false} RereadLinesEnd(lines: seq<string>, current: Section, layout: Layout)
    requires Whole(lines)
    ensures Ends(lines, MapLines(lines, current, layout, Reread(layout)))
  {
    var others := MapLines(lines, current, layout, Reread(layout));
    forall n | 0 <= n < |lines| && lines[n] != "" && Last(lines[n]) == '\n'
      ensures others[n] != "" && Last(others[n]) == '\n'
    {
      assert IsLine(lines[n], n == |lines| - 1);
      MapAt(lines, current, layout, Reread(layout), n);
      RereadEnds(lines[n], layout.updates(SectionAt(lines, n, current, layout)));
    }
  }

  /** Writing what the second call makes of the lines gives them back if and only if every line survives. */
  lemma {:induction false} SecondCallChangesNothingIff(lines: seq<string>, current: Section, layout: Layout)
    requires Whole(lines) && forall n :: 0 <= n < |lines| ==> KeepsSection(lines[n], layout)
    ensures Written(UpdateLines(Pieces(Written(lines)), current, layout)) == Written(lines)
            <==> forall n :: 0 <= n < |lines| ==>
                   Survives(lines[n], layout.updates(SectionAt(lines, n, current, layout)))
  {
    var others := MapLines(lines, current, layout, Reread(layout));
    PiecesOfWritten(lines);
    SecondCall(lines, current, layout);
    RereadLinesEnd(lines, current, layout);
    SameTextIffSameLines(lines, others);
    forall n | 0 <= n < |lines|
      ensures others[n] == UpdatedText(Pieces(lines[n]), layout.updates(SectionAt(lines, n, current, layout)))
    {
      MapAt(lines, current, layout, Reread(layout), n);
    }
  }

  /** Only lines that are cut when they are read again can change again. */
  ghost predicate CutLinesSurvive(lines: seq<string>, current: Section, layout: Layout) {
    forall n :: 0 <= n < |lines| && |lines[n]| > PIECE_MAX ==>
      Survives(lines[n], layout.updates(SectionAt(lines, n, current, layout)))
  }

  lemma {:induction false} FittingLineSurvives(lines: seq<string>, current: Section, layout: Layout, n: nat)
    requires n < |lines| && IsLine(lines[n], n == |lines| - 1) && |lines[n]| <= PIECE_MAX
    requires UpdateLines(lines, current, layout) == lines
    ensures Survives(lines[n], layout.updates(SectionAt(lines, n, current, layout)))
  {
    var ups := layout.updates(SectionAt(lines, n, current, layout));
    LineAt(lines, current, layout, n);
    OnePiece(lines[n], n == |lines| - 1);
    assert UpdatedText([lines[n]], ups) == UpdateAll(lines[n], ups) + "";
  }

  /**
   A file of tame whole lines is rewritten only once if and only if each updated line of more than 511 characters,
   read in pieces, updated and written again, is as it was.
   */
  lemma {:induction false} RewrittenOnceIff(file: string, layout: Layout)
    requires LayoutSound(layout) && PlainValues(layout)
    requires Whole(Pieces(file)) && TameFile(Pieces(file), NoSection, layout)
    requires forall n :: 0 <= n < |Updated(file, layout)| && |Updated(file, layout)[n]| > PIECE_MAX ==>
               KeepsSection(Updated(file, layout)[n], layout)
    ensures Rewritten(Rewritten(file, layout), layout) == Rewritten(file, layout)
            <==> CutLinesSurvive(Updated(file, layout), NoSection, layout)
  {
    var lines := Updated(file, layout);
    UpdatedAreWhole(Pieces(file), NoSection, layout);
    UpdateTwice(Pieces(file), NoSection, layout);
    forall n | 0 <= n < |lines|
      ensures KeepsSection(lines[n], layout)
      ensures |lines[n]| <= PIECE_MAX ==> Survives(lines[n], layout.updates(SectionAt(lines, n, NoSection, layout)))
    {
      assert IsLine(lines[n], n == |lines| - 1);
      if |lines[n]| <= PIECE_MAX {
        OnePieceKeepsSection(lines[n], n == |lines| - 1, layout);
        FittingLineSurvives(lines, NoSection, layout, n);
      }
    }
    SecondCallChangesNothingIff(lines, NoSection, layout);
  }

  lemma {:induction false} PlainAppend(some: seq<Update>, more: seq<Update>)
    requires PlainUpdates(some) && PlainUpdates(more)
    ensures PlainUpdates(some + more)
  {
  }

  lemma {:induction false} NumberPlain(key: Key, n: nat)
    ensures PlainUpdates(Number(key, n))
  {
  }

  lemma {:induction false} QuotedPlain(key: Key, text: string)
    requires IsPlain(text)
    ensures PlainUpdates(Quoted(key, text))
  {
  }

  lemma {:induction false} PlainSection(cfg: Config, section: Section)
    requires IsPlain(cfg.interfaceName) && IsPlain(cfg.broadcastAddress)
    ensures PlainUpdates(Updates(cfg, section))
  {
    match section
    case Discovery =>
      NumberPlain(TargetDeviceStart, cfg.targetDeviceStart);
      NumberPlain(TargetDeviceEnd, cfg.targetDeviceEnd);
      NumberPlain(WhoisRetry, cfg.whoisRetry);
      NumberPlain(ResponseTimeout, cfg.responseTimeoutMs);
    case LocalDevice =>
      NumberPlain(InstanceId, cfg.localInstanceId);
      NumberPlain(MaxApdu, cfg.localMaxApdu);
    case Network =>
      QuotedPlain(Interface, cfg.interfaceName);
      NumberPlain(Port, cfg.port);
      QuotedPlain(BroadcastAddress, cfg.broadcastAddress);
    case Services => PlainServices(cfg);
    case Connection =>
      NumberPlain(MaxReconnectAttempts, cfg.maxReconnectAttempts);
      NumberPlain(ReconnectInterval, cfg.reconnectIntervalMs);
    case HotConfig => NumberPlain(PollingInterval, cfg.hotConfigPollingMs);
    case _ =>
  }

  lemma {:induction false} PlainThree(a: seq<Update>, b: seq<Update>, c: seq<Update>)
    requires PlainUpdates(a) && PlainUpdates(b) && PlainUpdates(c)
    ensures PlainUpdates(a + b + c)
  {
    PlainAppend(a, b);
    PlainAppend(a + b, c);
  }

  lemma {:induction false} PlainServices(cfg: Config)
    ensures PlainUpdates(Updates(cfg, Services))
  {
    var a, b := Number(ReadTimeout, cfg.readTimeoutMs), Number(WriteTimeout, cfg.writeTimeoutMs);
    var c, d := Number(DefaultPriority, cfg.defaultPriority), Number(CacheExpiry, cfg.cacheExpiryMs);
    var e := [Update(Name(CacheStrategy), Decimal(cfg.cacheStrategy))];
    var f := Number(DatalinkMaintenance, cfg.datalinkMaintenanceMs);
    NumberPlain(ReadTimeout, cfg.readTimeoutMs);
    NumberPlain(WriteTimeout, cfg.writeTimeoutMs);
    NumberPlain(DefaultPriority, cfg.defaultPriority);
    NumberPlain(CacheExpiry, cfg.cacheExpiryMs);
    NumberPlain(DatalinkMaintenance, cfg.datalinkMaintenanceMs);
    PlainThree(a, b, c);
    PlainThree(a + b + c, d, e);
    PlainAppend(a + b + c + d + e, f);
  }

  lemma {:induction false} PlainConfig(cfg: Config)
    requires IsPlain(cfg.interfaceName) && IsPlain(cfg.broadcastAddress)
    ensures PlainValues(LayoutOf(cfg))
  {
    forall section
      ensures PlainUpdates(LayoutOf(cfg).updates(section))
    {
      PlainSection(cfg, section);
    }
  }

  /**
   Applying `config_update` twice to a file of tame whole lines is applying it once if and only if each updated line of
   more than 511 characters, read in pieces, updated and written again, is as it was; so it is if all lines fit.
   */
  lemma {:induction false} ConfigUpdateTwice(file: string, cfg: Config)
    requires IsPlain(cfg.interfaceName) && IsPlain(cfg.broadcastAddress)
    requires Whole(Pieces(file)) && TameFile(Pieces(file), NoSection, LayoutOf(cfg))
    requires var lines := Updated(file, LayoutOf(cfg));
             forall n :: 0 <= n < |lines| && |lines[n]| > PIECE_MAX ==> KeepsSection(lines[n], LayoutOf(cfg))
    ensures var layout := LayoutOf(cfg);
            && (Rewritten(Rewritten(file, layout), layout) == Rewritten(file, layout)
                <==> CutLinesSurvive(Updated(file, layout), NoSection, layout))
            && (Fit(Updated(file, layout)) ==> Rewritten(Rewritten(file, layout), layout) == Rewritten(file, layout))
  {
    LayoutIsSound(cfg);
    PlainConfig(cfg);
    RewrittenOnceIff(file, LayoutOf(cfg));
  }
}
