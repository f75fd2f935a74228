/**
 Lines in which an update brings another key of the section to light: the new value holds the key, or the old value held
 the key's name, so that the place behind it, in the comment, was not looked at. Updating such a line twice need not be
 updating it once.
 */
module ConfigUncovered {
  import opened Prelude
  import opened Text
  import opened BacnetConfig
  import opened ConfigLine
  import opened ConfigFile

  /** The key stands first in the comment at the end of the line. */
  predicate InComment(line: string, comment: string, k: string) {
    Parse(line, k).Some? && |line| >= |comment| && Locate(line, k).value - |k| >= |line| - |comment|
  }

  /** The comment after an update of a key in it. */
  function NewComment(line: string, comment: string, k: string, v: string): string
    requires k != "" && InComment(line, comment, k)
  {
    comment[..Locate(line, k).value - (|line| - |comment|)] + NewEnd(line, k, v)
  }

  lemma {:induction false} HeadAndComment(prefix: string, value: string, comment: string)
    requires comment != ""
    ensures prefix + NewRest(|prefix|, value, comment)
         == (prefix + ": " + value + Padding(|prefix| + 2 + |value|)) + comment
  {
    Associate(prefix, ": ", value, Padding(|prefix| + 2 + |value|), comment);
  }

  lemma {:induction false} Associate(a: string, b: string, c: string, d: string, e: string)
    ensures a + (b + c + (d + e)) == (a + b + c + d) + e
  {
  }

  lemma {:induction false} CommentCut(head: string, comment: string, start: nat, colon: nat, rest: string)
    requires IsComment(comment) && |head| <= start < colon < |head| + |comment| && rest != ""
    ensures var comment' := comment[..colon - |head|] + rest;
            comment' != "" && IsComment(comment') && (head + comment)[..colon] + rest == head + comment'
  {
    assert (head + comment)[..colon] == head + comment[..colon - |head|];
  }

  /** What an update puts in the place of the line's end. */
  function NewEnd(line: string, key: string, value: string): (end: string)
    requires Parse(line, key).Some?
    ensures end != ""
  {
    NewRest(Locate(line, key).value, value, Parse(line, key).value.comment)
  }

  lemma {:induction false} PutIs(line: string, key: string, value: string)
    requires Parse(line, key).Some?
    ensures |key| <= Locate(line, key).value < |line|
    ensures Put(line, key, value) == Some(line[..Locate(line, key).value] + NewEnd(line, key, value))
  {
  }

  lemma {:induction false} Spliced(
    head: string, comment: string, length: nat, colon: nat, end: string, comment': string, put: Option<string>)
    requires IsComment(comment) && end != "" && 0 < length && colon < |head + comment|
    requires colon - length >= |head + comment| - |comment|
    requires comment' == comment[..colon - (|head + comment| - |comment|)] + end
    requires put == Some((head + comment)[..colon] + end)
    ensures comment' != "" && IsComment(comment') && put == Some(head + comment')
  {
    CommentCut(head, comment, colon - length, colon, end);
  }

  /** Updating a key in the comment changes nothing but the comment. */
  lemma {:induction false} OnlyCommentChanges(head: string, comment: string, k: string, v: string)
    requires IsComment(comment) && k != "" && InComment(head + comment, comment, k)
    ensures var comment' := NewComment(head + comment, comment, k, v);
            comment' != "" && IsComment(comment') && Put(head + comment, k, v) == Some(head + comment')
  {
    var line := head + comment;
    PutIs(line, k, v);
    Spliced(head, comment, |k|, Locate(line, k).value, NewEnd(line, k, v), NewComment(line, comment, k, v),
            Put(line, k, v));
  }

  lemma {:induction false} UpdateAllFrom(line: string, ups: seq<Update>, a: nat)
    requires a < |ups|
    ensures UpdateAll(line, ups) == UpdateAll(UpdateOne(UpdateAll(line, ups[..a]), ups[a]), ups[a + 1..])
  {
    UpdateAllAppend(line, ups[..a], ups[a..]);
    assert ups[..a] + ups[a..] == ups && ups[a..][0] == ups[a] && ups[a..][1..] == ups[a + 1..];
  }

  /** The updates up to one and from one on, around a place. */
  lemma {:induction false} AroundOne(line: string, ups: seq<Update>, a: nat, line': string, end: string)
    requires a < |ups| && UpdateOne(line, ups[a]) == line' && UpdateAll(line', ups[a + 1..]) == end
    requires NoKeys(line, ups[..a])
    ensures UpdateAll(line, ups) == end
  {
    NoKeyNoChange(line, ups[..a]);
    UpdateAllFrom(line, ups, a);
  }

  /** No key but those of two updates stands in the line. */
  predicate OnlyTwo(line: string, ups: seq<Update>, a: nat, b: nat) {
    forall c :: 0 <= c < |ups| && c != a && c != b ==> Parse(line, ups[c].key).None?
  }

  /** One pass over a line in which the two updates of different keys may apply and no other does. */
  lemma {:induction false} PassOfTwo(line: string, ups: seq<Update>, a: nat, b: nat, one: string, two: string)
    requires a < b < |ups| && UpdateOne(line, ups[a]) == one && UpdateOne(one, ups[b]) == two
    requires OnlyTwo(line, ups, a, b) && OnlyTwo(one, ups, a, b) && OnlyTwo(two, ups, a, b)
    ensures UpdateAll(line, ups) == two
  {
    var rest := ups[a + 1..];
    assert rest[b - a - 1] == ups[b] && rest[b - a..] == ups[b + 1..];
    NoKeyNoChange(two, rest[b - a..]);
    AroundOne(one, rest, b - a - 1, two, two);
    AroundOne(line, ups, a, one, two);
  }

  // ---------------------------------------------------------------------------------------------
  // Where an uncovered key stands

  /** The key stands, with its colon, in the new value of another key. */
  predicate InValue(line: string, u: Update, k: string)
    requires Parse(line, u.key).Some?
  {
    Within(UpdateOne(line, u), Locate(line, u.key).value + 2, |u.value|, k)
  }

  predicate Within(line: string, start: nat, length: nat, k: string) {
    Parse(line, k).Some? && start <= Locate(line, k).value - |k| && Locate(line, k).value < start + length
  }

  lemma {:induction false} KeyLetters(s: string, k: string, pos: nat)
    requires IsKey(k) && At(s, k, pos)
    ensures forall n :: pos <= n < pos + |k| ==> !IsBlank(s[n]) && s[n] != '#'
  {
    forall n | pos <= n < pos + |k|
      ensures !IsBlank(s[n]) && s[n] != '#'
    {
      assert s[pos + (n - pos)] == k[n - pos];
    }
  }

  /** A key behind the colon of another is in the value or in the comment, not in the blanks or across their ends. */
  lemma {:induction false} KeyPlace(prefix: string, value: string, pad: string, comment: string, k: string, pos: nat)
    requires IsKey(k) && IsComment(comment) && forall j :: 0 <= j < |pad| ==> IsBlank(pad[j])
    requires var s := prefix + (": " + value + (pad + comment));
             At(s, k, pos) && |prefix| < pos + |k| < |s| && s[pos + |k|] == ':'
    ensures var s := prefix + (": " + value + (pad + comment));
            |s| - |comment| <= pos || (|prefix| + 2 <= pos && pos + |k| < |prefix| + 2 + |value|)
  {
    var s, start, colon := prefix + (": " + value + (pad + comment)), |prefix| + 2, pos + |k|;
    var end := start + |value| + |pad|;
    KeyLetters(s, k, pos);
    assert s[start - 1] == ' ';
    assert comment != "" ==> s[end] == '#';
    forall n | start + |value| <= n < end
      ensures IsBlank(s[n])
    {
      assert s[n] == pad[n - start - |value|];
    }
  }

  lemma {:induction false} KeyBefore(line: string, line': string, n: nat, k: string)
    requires n < |line| && n < |line'| && forall i :: 0 <= i <= n ==> line[i] == line'[i]
    requires Locate(line', k).Some? && Locate(line', k).value <= n
    ensures Locate(line, k) == Locate(line', k)
  {
    var pos := Locate(line', k).value - |k|;
    FindIsFirst(line', k);
    forall i | 0 <= i <= pos
      ensures At(line, k, i) == At(line', k, i)
    {
      AtAgree(line, i, line', i, k);
    }
    FindFirst(line, k, pos);
  }

  lemma {:induction false} FieldBehind(line: string, k: string, n: nat, f: Field)
    requires Locate(line, k).Some? && Locate(line, k).value <= n <= |line|
    requires WellFormed(f) && line[n..] == Joined(f)
    ensures Parse(line, k).Some?
  {
    var colon := Locate(line, k).value;
    var i := |f.gap|;
    assert Joined(f)[i] == if f.value != "" then f.value[0] else f.comment[0];
    assert line[colon..][n - colon + i] == line[n..][i];
    SplitsIff(line[colon..]);
  }

  lemma {:induction false} NotBefore(line: string, line': string, n: nat, f: Field, k: string)
    requires n < |line| && n < |line'| && forall i :: 0 <= i <= n ==> line[i] == line'[i]
    requires WellFormed(f) && line[n..] == Joined(f)
    requires Parse(line, k).None? && Locate(line', k).Some?
    ensures n < Locate(line', k).value
  {
    if Locate(line', k).value <= n {
      KeyBefore(line, line', n, k);
      FieldBehind(line, k, n, f);
    }
  }

  lemma {:induction false} SameTillColon(line: string, prefix: string, n: nat, rest: string, line': string)
    requires n < |line| && prefix == line[..n] && line[n] == ':' && rest != "" && rest[0] == ':'
    requires line' == prefix + rest
    ensures n < |line'| && forall i :: 0 <= i <= n ==> line[i] == line'[i]
  {
  }

  /** A key that an update uncovers stands behind the key that is updated. */
  lemma {:induction false} UncoveredIsBehind(line: string, u: Update, k: string, line': string)
    requires Parse(line, u.key).Some? && Parse(line, k).None? && line' == UpdateOne(line, u) && Parse(line', k).Some?
    ensures Locate(line, u.key).value < Locate(line', k).value
  {
    var n, f := Locate(line, u.key).value, Parse(line, u.key).value;
    PutOf(line, u.key, u.value);
    SplitSound(line[n..]);
    SameTillColon(line, line[..n], n, NewRest(n, u.value, f.comment), line');
    NotBefore(line, line', n, f, k);
  }

  lemma {:induction false} Shape(line: string, u: Update)
    requires Parse(line, u.key).Some?
    ensures var prefix, comment := line[..Locate(line, u.key).value], Parse(line, u.key).value.comment;
            && IsComment(comment) && |prefix| == Locate(line, u.key).value
            && UpdateOne(line, u)
               == prefix + (": " + u.value + (Pad(|prefix| + 2 + |u.value|, comment) + comment))
  {
    PutOf(line, u.key, u.value);
  }

  lemma {:induction false} PlaceOf(prefix: string, value: string, pad: string, comment: string, k: string, s: string)
    requires IsKey(k) && IsComment(comment) && forall j :: 0 <= j < |pad| ==> IsBlank(pad[j])
    requires s == prefix + (": " + value + (pad + comment)) && Parse(s, k).Some? && |prefix| < Locate(s, k).value
    ensures Within(s, |prefix| + 2, |value|, k) <==> !InComment(s, comment, k)
  {
    FindIsFirst(s, k);
    KeyPlace(prefix, value, pad, comment, k, Locate(s, k).value - |k|);
  }

  lemma {:induction false} PlaceBehind(prefix: string, value: string, comment: string, k: string, line: string)
    requires line == prefix + (": " + value + (Pad(|prefix| + 2 + |value|, comment) + comment)) && IsComment(comment)
    requires IsKey(k) && Parse(line, k).Some? && |prefix| < Locate(line, k).value
    ensures Within(line, |prefix| + 2, |value|, k) <==> !InComment(line, comment, k)
  {
    PlaceOf(prefix, value, Pad(|prefix| + 2 + |value|, comment), comment, k, line);
  }

  /** It stands in the new value or in the comment. */
  lemma {:induction false} UncoveredPlaces(line: string, u: Update, k: string)
    requires Parse(line, u.key).Some? && Parse(line, k).None? && Parse(UpdateOne(line, u), k).Some? && IsKey(k)
    ensures InValue(line, u, k) <==> !InComment(UpdateOne(line, u), Parse(line, u.key).value.comment, k)
  {
    UncoveredIsBehind(line, u, k, UpdateOne(line, u));
    Shape(line, u);
    PlaceBehind(line[..Locate(line, u.key).value], u.value, Parse(line, u.key).value.comment, k, UpdateOne(line, u));
  }

  // ---------------------------------------------------------------------------------------------
  // A key uncovered in the value

  /** What stands between the key and the comment makes no difference to an update. */
  lemma {:induction false} PutOver(line: string, u: Update, text: string)
    requires Parse(line, u.key).Some? && IsText(text, Parse(line, u.key).value.comment)
    ensures var colon, comment := Locate(line, u.key).value, Parse(line, u.key).value.comment;
            Put(line[..colon] + (text + comment), u.key, u.value) == Put(line, u.key, u.value)
  {
    var colon, comment := Locate(line, u.key).value, Parse(line, u.key).value.comment;
    var rest := text + comment;
    CommentFound(line, u.key);
    LocateKept(line, u.key, rest);
    assert (line[..colon] + rest)[colon..] == rest && (line[..colon] + rest)[..colon] == line[..colon];
    CommentBehind(text, comment);
  }

  lemma {:induction false} EndOf(head: string, comment: string, n: nat)
    requires n < |head|
    ensures (head + comment)[n..] == head[n..] + comment && Last(head[n..]) == Last(head)
  {
  }

  /** A key in the text before the comment is updated there. */
  lemma {:induction false} PutInside(line: string, head: string, comment: string, v: Update)
    requires Parse(line, v.key).Some? && Locate(line, v.key).value < |head| && line == head + comment
    requires IsComment(comment) && '#' !in head[Locate(line, v.key).value..] && (comment == "" ==> Last(head) == '\n')
    ensures Put(line, v.key, v.value)
         == Some(line[..Locate(line, v.key).value] + NewRest(Locate(line, v.key).value, v.value, comment))
  {
    var colon := Locate(line, v.key).value;
    EndOf(head, comment, colon);
    CommentBehind(head[colon..], comment);
  }

  /** The text before the comment after an update in it. */
  function NewInside(prefix: string, text: string, comment: string, colon: nat, value: string): string
    requires |prefix| <= colon <= |prefix| + |text|
  {
    text[..colon - |prefix|] + ": " + value + Pad(colon + 2 + |value|, comment)
  }

  lemma {:induction false} TextBefore(
    prefix: string, text: string, comment: string, colon: nat, value: string, line: string)
    requires line == prefix + (text + comment) && |prefix| < colon <= |prefix| + |text|
    requires IsText(text, comment) && '#' !in value
    ensures IsText(NewInside(prefix, text, comment, colon, value), comment)
    ensures line[..colon] + NewRest(colon, value, comment)
         == prefix + (NewInside(prefix, text, comment, colon, value) + comment)
  {
    var cut, pad := text[..colon - |prefix|], Pad(colon + 2 + |value|, comment);
    CutOfText(prefix, text, comment, colon);
    CutJoins(prefix, cut, value, pad, comment);
    CutIsText(cut, value, pad, comment);
  }

  lemma {:induction false} CutOfText(prefix: string, text: string, comment: string, colon: nat)
    requires |prefix| < colon <= |prefix| + |text| && IsText(text, comment)
    ensures var cut := text[..colon - |prefix|];
            (prefix + (text + comment))[..colon] == prefix + cut && '#' !in cut && cut[0] == ':'
  {
  }

  lemma {:induction false} CutIsText(cut: string, value: string, pad: string, comment: string)
    requires cut != "" && cut[0] == ':' && '#' !in cut && '#' !in value && '#' !in pad && pad != ""
    requires comment == "" ==> Last(pad) == '\n'
    ensures IsText(cut + ": " + value + pad, comment)
  {
    LastOfPad(cut + ": " + value, pad);
  }

  lemma {:induction false} CutJoins(prefix: string, cut: string, value: string, pad: string, comment: string)
    ensures (prefix + cut) + (": " + value + (pad + comment)) == prefix + ((cut + ": " + value + pad) + comment)
  {
  }

  /** An update in the value is undone by the update of the value. */
  lemma {:induction false} ValueIsRestored(line: string, u: Update, v: Update)
    requires Parse(line, u.key).Some? && InValue(line, u, v.key) && '#' !in u.value && '#' !in v.value
    ensures UpdateOne(UpdateOne(UpdateOne(line, u), v), u) == UpdateOne(line, u)
  {
    var prefix, comment := line[..Locate(line, u.key).value], Parse(line, u.key).value.comment;
    var line' := UpdateOne(line, u);
    var text := ": " + u.value + Pad(|prefix| + 2 + |u.value|, comment);
    Shape(line, u);
    NewText(u.value, comment, |prefix|);
    UpdatedInside(prefix, text, comment, line', v);
    PutOver(line, u, NewInside(prefix, text, comment, Locate(line', v.key).value, v.value));
  }

  lemma {:induction false} UpdatedInside(prefix: string, text: string, comment: string, line: string, v: Update)
    requires line == prefix + (text + comment) && IsComment(comment) && IsText(text, comment) && '#' !in v.value
    requires Parse(line, v.key).Some? && |prefix| < Locate(line, v.key).value < |prefix| + |text|
    ensures var text' := NewInside(prefix, text, comment, Locate(line, v.key).value, v.value);
            IsText(text', comment) && UpdateOne(line, v) == prefix + (text' + comment)
  {
    TextInside(prefix, text, comment, line, v);
    TextBefore(prefix, text, comment, Locate(line, v.key).value, v.value, line);
  }

  lemma {:induction false} Regrouped(prefix: string, text: string, comment: string, n: nat)
    requires |prefix| <= n <= |prefix| + |text| && '#' !in text
    ensures prefix + (text + comment) == (prefix + text) + comment && '#' !in (prefix + text)[n..]
  {
    assert (prefix + text)[n..] == text[n - |prefix|..];
  }

  lemma {:induction false} TextInside(prefix: string, text: string, comment: string, line: string, v: Update)
    requires line == prefix + (text + comment) && IsComment(comment) && IsText(text, comment)
    requires Parse(line, v.key).Some? && |prefix| < Locate(line, v.key).value < |prefix| + |text|
    ensures Put(line, v.key, v.value)
         == Some(line[..Locate(line, v.key).value] + NewRest(Locate(line, v.key).value, v.value, comment))
  {
    Regrouped(prefix, text, comment, Locate(line, v.key).value);
    LastOfPad(prefix, text);
    PutInside(line, prefix + text, comment, v);
  }

  // ---------------------------------------------------------------------------------------------
  // When a line is settled by one pass

  /**
   A line holds one key; its update uncovers one other key, in the new value or in the comment, and the update of that
   one uncovers no third. Updating the line twice is updating it once if and only if the uncovered key stands in the
   value, or is tried after the one that uncovers it, or holds its new value already.
   */
  lemma {:induction false} UncoveredKeyDecides(line: string, ups: seq<Update>, a: nat, b: nat)
    requires a < |ups| && b < |ups| && a != b && KeysSound(ups) && Parse(line, ups[a].key).Some?
    requires '#' !in ups[a].value && '#' !in ups[b].value
    requires OnlyTwo(line, ups, a, a) && Parse(UpdateOne(line, ups[a]), ups[b].key).Some?
    requires var line' := UpdateOne(line, ups[a]);
             OnlyTwo(line', ups, a, b) && OnlyTwo(UpdateOne(line', ups[b]), ups, a, b)
    ensures var line' := UpdateOne(line, ups[a]);
            UpdateAll(UpdateAll(line, ups), ups) == UpdateAll(line, ups)
            <==> InValue(line, ups[a], ups[b].key) || a < b || UpdateOne(line', ups[b]) == line'
  {
    UncoveredPlaces(line, ups[a], ups[b].key);
    if InValue(line, ups[a], ups[b].key) {
      UncoveredInValue(line, ups, a, b);
    } else {
      UncoveredInComment(line, ups, a, b);
    }
  }

  lemma {:induction false} UncoveredInValue(line: string, ups: seq<Update>, a: nat, b: nat)
    requires a < |ups| && b < |ups| && a != b && Parse(line, ups[a].key).Some?
    requires '#' !in ups[a].value && '#' !in ups[b].value
    requires OnlyTwo(line, ups, a, a) && InValue(line, ups[a], ups[b].key)
    requires var line' := UpdateOne(line, ups[a]);
             OnlyTwo(line', ups, a, b) && OnlyTwo(UpdateOne(line', ups[b]), ups, a, b)
    ensures UpdateAll(UpdateAll(line, ups), ups) == UpdateAll(line, ups)
  {
    var line' := UpdateOne(line, ups[a]);
    var line'' := UpdateOne(line', ups[b]);
    ValueIsRestored(line, ups[a], ups[b]);
    PutPut(line, ups[a].key, ups[a].value, ups[a].value);
    if a < b {
      PassOfTwo(line, ups, a, b, line', line'');
      PassOfTwo(line'', ups, a, b, line', line'');
    } else {
      assert UpdateOne(line, ups[b]) == line;
      PassOfTwo(line, ups, b, a, line, line');
      PassOfTwo(line', ups, b, a, line'', line');
    }
  }

  lemma {:induction false} UncoveredInComment(line: string, ups: seq<Update>, a: nat, b: nat)
    requires a < |ups| && b < |ups| && a != b && KeysSound(ups) && Parse(line, ups[a].key).Some?
    requires '#' !in ups[a].value && '#' !in ups[b].value
    requires OnlyTwo(line, ups, a, a)
    requires InComment(UpdateOne(line, ups[a]), Parse(line, ups[a].key).value.comment, ups[b].key)
    requires var line' := UpdateOne(line, ups[a]);
             OnlyTwo(line', ups, a, b) && OnlyTwo(UpdateOne(line', ups[b]), ups, a, b)
    ensures var line' := UpdateOne(line, ups[a]);
            UpdateAll(UpdateAll(line, ups), ups) == UpdateAll(line, ups)
            <==> a < b || UpdateOne(line', ups[b]) == line'
  {
    var line' := UpdateOne(line, ups[a]);
    var line'' := UpdateOne(line', ups[b]);
    UncoveredForm(line, ups[a], ups[b]);
    if a < b {
      PassOfTwo(line, ups, a, b, line', line'');
      PassOfTwo(line'', ups, a, b, line'', line'');
    } else {
      assert UpdateOne(line, ups[b]) == line;
      PassOfTwo(line, ups, b, a, line, line');
      PassOfTwo(line', ups, b, a, line'', line'');
    }
  }

  /** An updated line before its comment. */
  function Head(line: string, u: Update): string
    requires Parse(line, u.key).Some?
  {
    var colon := Locate(line, u.key).value;
    line[..colon] + ": " + u.value + Padding(colon + 2 + |u.value|)
  }

  lemma {:induction false} HeadStays(line: string, u: Update, comment: string)
    requires Parse(line, u.key).Some? && '#' !in u.value && IsComment(comment) && comment != ""
    ensures UpdateOne(Head(line, u) + comment, u) == Head(line, u) + comment
  {
    HeadAndComment(line[..Locate(line, u.key).value], u.value, comment);
    RewrittenStays(line, u.key, u.value, comment);
  }

  lemma {:induction false} UpdatedHasHead(line: string, u: Update)
    requires Parse(line, u.key).Some? && Parse(line, u.key).value.comment != ""
    ensures UpdateOne(line, u) == Head(line, u) + Parse(line, u.key).value.comment
  {
    PutOf(line, u.key, u.value);
    HeadAndComment(line[..Locate(line, u.key).value], u.value, Parse(line, u.key).value.comment);
  }

  /** Neither update, made again, changes the line in which both have been made. */
  lemma {:induction false} UncoveredForm(line: string, u: Update, v: Update)
    requires Parse(line, u.key).Some? && '#' !in u.value && '#' !in v.value && v.key != ""
    requires InComment(UpdateOne(line, u), Parse(line, u.key).value.comment, v.key)
    ensures var line' := UpdateOne(line, u);
            var line'' := UpdateOne(line', v);
            UpdateOne(line', u) == line' && UpdateOne(line'', u) == line'' && UpdateOne(line'', v) == line''
  {
    var line', comment := UpdateOne(line, u), Parse(line, u.key).value.comment;
    CommentFound(line, u.key);
    assert comment != "";
    UpdatedHasHead(line, u);
    OnlyCommentChanges(Head(line, u), comment, v.key, v.value);
    HeadStays(line, u, comment);
    HeadStays(line, u, NewComment(line', comment, v.key, v.value));
    PutPut(line', v.key, v.value, v.value);
  }

  // ---------------------------------------------------------------------------------------------
  // A line of the network section

  const PORT := "port"
  const OLD_VALUE := "\"port\" "
  const COMMENT := "# port: 3"

  /** The key stands at a place before which its first letter does not occur. */
  lemma {:induction false} FirstLetter(line: string, key: string, pos: nat)
    requires key != "" && pos + |key| <= |line| && line[pos..pos + |key|] == key && key[0] !in line[..pos]
    ensures Find(line, key) == Some(pos)
  {
    forall j | 0 <= j < |key|
      ensures line[pos + j] == key[j]
    {
      assert line[pos..pos + |key|][j] == line[pos + j];
    }
    forall i | 0 <= i < pos
      ensures !At(line, key, i)
    {
      assert line[..pos][i] == line[i];
      assert line[i] != key[0];
    }
    FindFirst(line, key, pos);
  }

  /** The field of a key at the start of a line. */
  lemma {:induction false} FirstField(key: string, f: Field)
    requires key != "" && WellFormed(f) && f.gap != "" && f.gap[0] == ':'
    ensures Locate(key + Joined(f), key) == Some(|key|) && Parse(key + Joined(f), key) == Some(f)
  {
    var line := key + Joined(f);
    KeyFirst(line, key);
    assert line[|key|..] == Joined(f) && line[|key|] == Joined(f)[0] == f.gap[0];
    SplitUnique(f);
  }

  /** A name in a value, without a colon behind it, is no key. */
  lemma {:induction false} NameInValue(before: string, after: string)
    requires 'p' !in before && after != "" && after[0] != ':'
    ensures Parse(before + PORT + after, PORT).None?
  {
    var line := before + PORT + after;
    assert line[..|before|] == before && line[|before|..|before| + |PORT|] == PORT;
    FirstLetter(line, PORT, |before|);
    assert line[|before| + |PORT|] == after[0];
  }

  lemma {:induction false} KeyFirst(line: string, key: string)
    requires key != "" && key <= line
    ensures Find(line, key) == Some(0)
  {
    assert line[..0] == [];
    FirstLetter(line, key, 0);
  }

  /** The rewritten line: the port's name is found in the comment, with a colon. */
  lemma {:induction false} RewrittenLine(head: string)
    requires 'p' !in head
    ensures var line := head + COMMENT;
            && Locate(line, PORT) == Some(|head| + 6) && Parse(line, PORT) == Some(Field(": ", "3", ""))
  {
    var line := head + COMMENT;
    assert line[|head| + 2..|head| + 6] == PORT;
    assert line[..|head| + 2] == head + "# ";
    FirstLetter(line, PORT, |head| + 2);
    var f := Field(": ", "3", "");
    assert line[|head| + 6..] == Joined(f);
    SplitUnique(f);
  }

  function OldLine(key: string): string {
    key + Joined(Field(": ", OLD_VALUE, COMMENT))
  }

  lemma {:induction false} OldLineParses(key: string)
    requires IsKey(key)
    ensures Locate(OldLine(key), key) == Some(|key|)
    ensures Parse(OldLine(key), key) == Some(Field(": ", OLD_VALUE, COMMENT))
  {
    FirstField(key, Field(": ", OLD_VALUE, COMMENT));
  }

  lemma {:induction false} OldLineHidesPort(key: string)
    requires 'p' !in key
    ensures Parse(OldLine(key), PORT).None?
  {
    NameInValue(key + (": " + "\""), "\" " + COMMENT);
    InPieces(key, ": ", "\"", PORT, "\" ", COMMENT);
    assert OLD_VALUE == "\"" + PORT + "\" ";
  }

  lemma {:induction false} InPieces(a: string, b: string, c: string, d: string, e: string, f: string)
    ensures a + (b + (c + d + e) + f) == (a + (b + c)) + d + (e + f)
  {
  }

  function NewHead(key: string, value: string): string {
    key + ": " + value + Padding(|key| + 2 + |value|)
  }

  lemma {:induction false} OldLineUpdated(key: string, value: string)
    requires IsKey(key)
    ensures Put(OldLine(key), key, value) == Some(NewHead(key, value) + COMMENT)
  {
    OldLineParses(key);
    HeadAndComment(key, value, COMMENT);
    assert OldLine(key)[..|key|] == key;
  }

  lemma {:induction false} NewHeadPlain(key: string, value: string)
    requires 'p' !in key && 'p' !in value
    ensures 'p' !in NewHead(key, value)
  {
  }

  /** Updating the line of a key, tried after the port, uncovers the port in the comment. */
  lemma {:induction false} PortIsUncovered(key: string, value: string, n: string)
    requires IsKey(key) && 'p' !in key && 'p' !in value && '#' !in value && '#' !in n
    ensures var ups, line := [Update(PORT, n), Update(key, value)], OldLine(key);
            UpdateAll(UpdateAll(line, ups), ups) != UpdateAll(line, ups)
  {
    OldLineParses(key);
    OldLineHidesPort(key);
    OldLineUpdated(key, value);
    NewHeadPlain(key, value);
    RewrittenLine(NewHead(key, value));
    LosesItsEnd(NewHead(key, value), n);
    UncoveredByLater(OldLine(key), NewHead(key, value) + COMMENT, Update(key, value), Update(PORT, n));
  }

  lemma {:induction false} TwoUpdates(line: string, u: Update, v: Update)
    ensures UpdateAll(line, [u, v]) == UpdateOne(UpdateOne(line, u), v)
  {
    assert [u, v][1..] == [v] && [v][1..] == [];
    assert UpdateAll(UpdateOne(line, u), [v]) == UpdateAll(UpdateOne(UpdateOne(line, u), v), []);
  }

  /** The update of `u` uncovers `v`, which has been tried before. */
  lemma {:induction false} UncoveredByLater(line: string, line': string, u: Update, v: Update)
    requires Parse(line, u.key).Some? && Parse(line, v.key).None? && UpdateOne(line, u) == line'
    requires '#' !in u.value && '#' !in v.value && v.key != ""
    requires InComment(line', Parse(line, u.key).value.comment, v.key) && UpdateOne(line', v) != line'
    ensures UpdateAll(UpdateAll(line, [v, u]), [v, u]) != UpdateAll(line, [v, u])
  {
    TwoUpdates(line, v, u);
    TwoUpdates(line', v, u);
    UncoveredForm(line, u, v);
  }

  lemma {:induction false} LosesItsEnd(head: string, n: string)
    requires 'p' !in head
    ensures UpdateOne(head + COMMENT, Update(PORT, n)) != head + COMMENT
  {
    RewrittenLine(head);
    PutIs(head + COMMENT, PORT, n);
    var end := NewEnd(head + COMMENT, PORT, n);
    assert end[|end| - 1] == '\n';
  }

  /**
   The network section of any configuration with a port, a broadcast address and no interface name: the line of the
   broadcast address is rewritten once more by a second update.
   */
  lemma {:induction false} BroadcastLineUncoversPort(cfg: Config)
    requires cfg.interfaceName == "" && cfg.port > 0 && cfg.broadcastAddress != ""
    requires 'p' !in cfg.broadcastAddress && '#' !in cfg.broadcastAddress
    ensures var ups, line := Updates(cfg, Network), OldLine(Name(BroadcastAddress));
            UpdateAll(UpdateAll(line, ups), ups) != UpdateAll(line, ups)
  {
    var value := "\"" + cfg.broadcastAddress + "\"";
    NameIsKey(BroadcastAddress);
    assert Updates(cfg, Network) == [Update(PORT, Decimal(cfg.port)), Update(Name(BroadcastAddress), value)];
    PortIsUncovered(Name(BroadcastAddress), value, Decimal(cfg.port));
  }
}
