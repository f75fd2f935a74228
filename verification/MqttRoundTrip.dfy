/** What a JSON parser makes of a buffer that any sequence of `mqtt_data_format` calls has built. */
module MqttRoundTrip {
  import opened Prelude
  import opened Text
  import opened Json
  import opened MqttFormat

  // ---------------------------------------------------------------------------------------------
  // Any sequence of calls renders the accepted pairs

  datatype Call = Call(key: Option<string>, arg: Argument)

  datatype Pair = Pair(key: string, datum: Datum)

  /** The string in a buffer that was empty before the calls. */
  function Built(calls: seq<Call>): string {
    if calls == [] then ""
    else Format(Built(Front(calls)), calls[|calls| - 1].key, calls[|calls| - 1].arg).1
  }

  /** The pairs of the calls that returned success. */
  function Accepted(calls: seq<Call>): seq<Pair> {
    if calls == [] then []
    else
      var call := calls[|calls| - 1];
      var before := Accepted(Front(calls));
      if Format(Built(Front(calls)), call.key, call.arg).0.Success? && call.key.Some? && call.arg.Given?
      then before + [Pair(call.key.value, call.arg.datum)] else before
  }

  function PairText(p: Pair): string {
    Snippet(p.key, p.datum)
  }

  function Map<A, B>(f: A -> B, s: seq<A>): (r: seq<B>)
    ensures |r| == |s|
  {
    seq(|s|, n requires 0 <= n < |s| => f(s[n]))
  }

  lemma {:induction false} MapTail<A, B>(f: A -> B, s: seq<A>)
    requires s != []
    ensures Map(f, s)[1..] == Map(f, s[1..]) && Map(f, s)[0] == f(s[0])
  {
  }

  lemma {:induction false} MapSnoc<A, B>(f: A -> B, s: seq<A>, a: A)
    ensures Map(f, s + [a]) == Map(f, s) + [f(a)]
  {
  }

  function Texts(ps: seq<Pair>): (texts: seq<string>)
    ensures |texts| == |ps|
  {
    Map(PairText, ps)
  }

  function Joined(texts: seq<string>): string {
    if texts == [] then ""
    else if |texts| == 1 then texts[0]
    else texts[0] + "," + Joined(texts[1..])
  }

  function Render(ps: seq<Pair>): string {
    "{" + Joined(Texts(ps)) + "}"
  }

  lemma {:induction false} JoinedSnoc(texts: seq<string>, text: string)
    requires texts != []
    ensures Joined(texts + [text]) == Joined(texts) + "," + text
    ensures texts[0] != "" ==> Joined(texts) != ""
  {
    assert (texts + [text])[1..] == texts[1..] + [text];
    if |texts| > 1 {
      JoinedSnoc(texts[1..], text);
    }
  }

  lemma {:induction false} AppendToObject(body: string, snippet: string)
    ensures var longer := "{" + (if body == "" then snippet else body + "," + snippet) + "}";
            Append("{" + body + "}", snippet) == if |longer| < 1024 then Some(longer) else None
  {
    var start := "{" + body + "}";
    assert start[..|start| - 1] == "{" + body;
    var comma := if body == "" then "" else ",";
    var longer := "{" + (if body == "" then snippet else body + "," + snippet) + "}";
    assert ("{" + body) + comma + snippet + "}" == longer;
    assert |start| > 2 <==> body != "";
  }

  /** A member is added to nothing but text in braces. */
  lemma {:induction false} OnlyObjectsGrow(content: string, snippet: string)
    requires Append(content, snippet).Some?
    ensures |content| >= 2 && content == "{" + content[1..|content| - 1] + "}"
  {
  }

  lemma {:induction false} PairTextStarts(p: Pair)
    ensures PairText(p) != "" && PairText(p)[0] == '"'
  {
  }

  lemma {:induction false} AppendRenders(ps: seq<Pair>, p: Pair)
    ensures var longer := Render(ps + [p]);
            Append(Render(ps), PairText(p)) == if |longer| < 1024 then Some(longer) else None
  {
    AppendToObject(Joined(Texts(ps)), PairText(p));
    MapSnoc(PairText, ps, p);
    if ps != [] {
      PairTextStarts(ps[0]);
      JoinedSnoc(Texts(ps), PairText(p));
    }
  }

  /** The buffer holds the object of some pairs, or nothing yet. */
  predicate Renders(content: string, ps: seq<Pair>) {
    (content == Render(ps) || (content == "" && ps == [])) && |content| < MAX_MESSAGE_SIZE
  }

  lemma {:induction false} FormatRenders(content: string, ps: seq<Pair>, key: Option<string>, arg: Argument)
    requires Renders(content, ps)
    ensures var (rc, after) := Format(content, key, arg);
            if rc.Success? then key.Some? && arg.Given? && Renders(after, ps + [Pair(key.value, arg.datum)])
            else Renders(after, ps)
  {
    assert Render([]) == "{}";
    if key.Some? && arg.Given? {
      AppendRenders(ps, Pair(key.value, arg.datum));
    }
  }

  /** After any calls the buffer is empty, or it is the object that holds exactly the accepted pairs in order. */
  lemma {:induction false} BuiltIsRender(calls: seq<Call>)
    ensures Renders(Built(calls), Accepted(calls))
  {
    if calls != [] {
      BuiltIsRender(Front(calls));
      var call := calls[|calls| - 1];
      FormatRenders(Built(Front(calls)), Accepted(Front(calls)), call.key, call.arg);
    }
  }

  /**
   The return code of a call after any others: a pair is accepted if and only if its key is not empty, its text has less
   than 256 characters, and the object with it has less than 1024.
   */
  lemma {:induction false} CallIsAcceptedIff(calls: seq<Call>, key: Option<string>, arg: Argument)
    ensures var rc := Format(Built(calls), key, arg).0;
            && rc == (if key.None? || key.value == "" then ErrorParam
                      else if arg.OtherType? then ErrorUnsupported
                      else if arg.NoData? then ErrorParam
                      else if |PairText(Pair(key.value, arg.datum))| >= 256 then ErrorWrite
                      else if |Render(Accepted(calls) + [Pair(key.value, arg.datum)])| >= 1024 then ErrorWrite
                      else Success)
            && Accepted(calls + [Call(key, arg)])
               == if rc == Success then Accepted(calls) + [Pair(key.value, arg.datum)] else Accepted(calls)
  {
    assert Front(calls + [Call(key, arg)]) == calls;
    BuiltIsRender(calls);
    assert Render([]) == "{}";
    if key.Some? && arg.Given? {
      AppendRenders(Accepted(calls), Pair(key.value, arg.datum));
    }
  }

  /** A failed call leaves the buffer as it was, or "{}" if it was empty. */
  lemma {:induction false} FailureChangesNothing(content: string, key: Option<string>, arg: Argument)
    ensures !Format(content, key, arg).0.Success? ==>
              Format(content, key, arg).1 == content || (content == "" && Format(content, key, arg).1 == "{}")
  {
  }

  // ---------------------------------------------------------------------------------------------
  // What is kept of a text value

  /** The characters written by `Escape`, before escaping. */
  function Kept(s: string, used: nat): string {
    if s == "" || used + 2 >= TEXT_SIZE then ""
    else if s[0] == '"' then ['"'] + Kept(s[1..], used + 2)
    else if s[0] < ' ' then Kept(s[1..], used)
    else [s[0]] + Kept(s[1..], used + 1)
  }

  function Escaped(c: char): string {
    if c == '"' then "\\\"" else if c < ' ' then "" else [c]
  }

  function EscapeAll(s: string): string {
    if s == "" then "" else Escaped(s[0]) + EscapeAll(s[1..])
  }

  function Printable(s: string): string {
    if s == "" then ""
    else if s[0] < ' ' then Printable(s[1..])
    else [s[0]] + Printable(s[1..])
  }

  /** The number of characters of `s` that are looked at. */
  function Taken(s: string, used: nat): (n: nat)
    ensures n <= |s|
  {
    if s == "" || used + 2 >= TEXT_SIZE then 0 else 1 + Taken(s[1..], used + |Escaped(s[0])|)
  }

  lemma {:induction false} PrefixParts(s: string, n: nat)
    requires 0 < n <= |s|
    ensures s[..n] != "" && s[..n][0] == s[0] && s[..n][1..] == s[1..][..n - 1]
  {
  }

  lemma {:induction false} KeptIsPrintable(s: string, used: nat)
    ensures Kept(s, used) == Printable(s[..Taken(s, used)])
    decreases |s|
  {
    if s != "" && used + 2 < TEXT_SIZE {
      var n := Taken(s, used);
      KeptIsPrintable(s[1..], used + |Escaped(s[0])|);
      PrefixParts(s, n);
    }
  }

  lemma {:induction false} EscapeIsOfPrefix(s: string, used: nat)
    ensures Escape(s, used) == EscapeAll(s[..Taken(s, used)])
    decreases |s|
  {
    if s != "" && used + 2 < TEXT_SIZE {
      var n := Taken(s, used);
      EscapeIsOfPrefix(s[1..], used + |Escaped(s[0])|);
      PrefixParts(s, n);
    }
  }

  lemma {:induction false} ControlsAreNotWritten(s: string)
    ensures EscapeAll(s) == EscapeAll(Printable(s))
  {
    if s != "" {
      ControlsAreNotWritten(s[1..]);
      if s[0] >= ' ' {
        assert Printable(s)[0] == s[0] && Printable(s)[1..] == Printable(s[1..]);
      }
    }
  }

  /** Each proper prefix leaves two places free, and the prefix itself does not, unless it is the whole text. */
  lemma {:induction false} PrefixIsLongest(s: string, used: nat, m: nat)
    requires m <= Taken(s, used)
    ensures m < Taken(s, used) ==> used + |EscapeAll(s[..m])| + 2 < TEXT_SIZE
    ensures m == Taken(s, used) < |s| ==> used + |EscapeAll(s[..m])| + 2 >= TEXT_SIZE
    decreases |s|
  {
    if m > 0 {
      PrefixIsLongest(s[1..], used + |Escaped(s[0])|, m - 1);
      assert s[..m][0] == s[0] && s[..m][1..] == s[1..][..m - 1];
    }
  }

  /**
   The text written is the escaped form of a prefix of the value without its control characters. The prefix is the
   longest that fits: each of its proper prefixes leaves two places free, and the prefix itself does not, unless it
   is the whole value. It ends between escape pairs because the escaped form is that of whole characters.
   */
  lemma {:induction false} LongestPrefixKept(s: string, used: nat)
    ensures var n := Taken(s, used);
            && Kept(s, used) == Printable(s[..n])
            && Escape(s, used) == EscapeAll(s[..n]) == EscapeAll(Printable(s[..n]))
            && (n < |s| ==> used + |EscapeAll(s[..n])| + 2 >= 200)
            && (forall m :: 0 <= m < n ==> used + |EscapeAll(s[..m])| + 2 < 200)
  {
    var n := Taken(s, used);
    KeptIsPrintable(s, used);
    EscapeIsOfPrefix(s, used);
    ControlsAreNotWritten(s[..n]);
    PrefixIsLongest(s, used, n);
    forall m | 0 <= m < n
      ensures used + |EscapeAll(s[..m])| + 2 < TEXT_SIZE
    {
      PrefixIsLongest(s, used, m);
    }
  }

  lemma {:induction false} PrintableClean(s: string)
    ensures forall i :: 0 <= i < |Printable(s)| ==> Printable(s)[i] >= ' '
  {
    if s != "" {
      PrintableClean(s[1..]);
    }
  }

  // ---------------------------------------------------------------------------------------------
  // Strings

  /** A parser does not read the rest of a string as `target`. */
  predicate Misses(t: string, target: string) {
    Chars(t).Found? ==> Chars(t).item != target
  }

  lemma {:induction false} CharsMisses(t: string, target: string)
    requires target != ""
    requires t != "" && Unescaped(t[0]) && t[0] == target[0] ==> Misses(t[1..], target[1..])
    requires |t| >= 2 && t[0] == '\\' && SimpleEscape(t[1]) == Some(target[0]) ==> Misses(t[2..], target[1..])
    requires |t| >= 6 && t[0] == '\\' && t[1] == 'u' && HexEscape(t[2..]) == Some(target[0]) ==>
               Misses(t[6..], target[1..])
    ensures Misses(t, target)
  {
  }

  lemma {:induction false} HexHasNoQuote(t: string)
    requires |t| >= 6 && t[1] == 'u' && HexEscape(t[2..]).Some?
    ensures forall n :: 1 <= n < 6 ==> t[n] != '"' && t[n] != '\\'
  {
    assert t[2..][0] == t[2] && t[2..][1] == t[3] && t[2..][2] == t[4] && t[2..][3] == t[5];
  }

  /** What closes a string, and what follows. */
  predicate Closes(end: string) {
    end != "" && end[0] == '"'
  }

  lemma {:induction false} Ahead(k: string, i: nat, n: nat, end: string)
    requires i + n <= |k| && Closes(end)
    ensures var t := k[i..] + end;
            && |t| > n && t[n..] == k[i + n..] + end && t[n] == (if i + n < |k| then k[i + n] else '"')
  {
  }

  lemma {:induction false} NoQuoteAhead(k: string, i: nat, n: nat)
    requires i + n <= |k| && '"' !in k[..i] && forall m :: i <= m < i + n ==> k[m] != '"'
    ensures '"' !in k[..i + n]
  {
    assert forall m :: 0 <= m < i ==> k[m] == k[..i][m];
  }

  /**
   Once an escape has been decoded the text read lags behind the key, and it never catches up: the quotation mark
   that an escape at the end of the key would swallow cannot stand in what lags.
   */
  lemma {:induction false} KeyLags(k: string, i: nat, j: nat, end: string)
    requires j <= i <= |k| && (j < i || (i < |k| && k[i] == '\\'))
    requires '"' !in k[..i] && Closes(end)
    ensures Misses(k[i..] + end, k[j..])
    decreases |k| - i, 2
  {
    Ahead(k, i, 0, end);
    assert j < i ==> k[..i][j] == k[j];
    if i < |k| {
      Ahead(k, i, 1, end);
      if k[i] == '\\' {
        KeyLagsAtEscape(k, i, j, end);
      } else {
        if Unescaped(k[i]) && k[i] == k[j] {
          NoQuoteAhead(k, i, 1);
          KeyLags(k, i + 1, j + 1, end);
        }
        CharsMisses(k[i..] + end, k[j..]);
      }
    } else {
      CharsMisses(k[i..] + end, k[j..]);
    }
  }

  lemma {:induction false} KeyLagsAtEscape(k: string, i: nat, j: nat, end: string)
    requires j <= i < |k| && k[i] == '\\'
    requires '"' !in k[..i] && Closes(end) && k[j] != '"'
    ensures Misses(k[i..] + end, k[j..])
    decreases |k| - i, 1
  {
    var t := k[i..] + end;
    Ahead(k, i, 1, end);
    assert k[j..][0] == k[j];
    if |t| >= 2 && SimpleEscape(t[1]) == Some(k[j]) {
      KeyLagsAfterSimple(k, i, j, end);
    }
    if |t| >= 6 && t[1] == 'u' && HexEscape(t[2..]) == Some(k[j]) {
      KeyLagsAfterHex(k, i, j, end);
    }
    CharsMisses(t, k[j..]);
  }

  lemma {:induction false} KeyLagsAfterSimple(k: string, i: nat, j: nat, end: string)
    requires j <= i < |k| && k[i] == '\\' && '"' !in k[..i] && Closes(end) && k[j] != '"'
    requires |k[i..] + end| >= 2 && SimpleEscape((k[i..] + end)[1]) == Some(k[j])
    ensures Misses((k[i..] + end)[2..], k[j..][1..])
    decreases |k| - i, 0
  {
    TwoOfKey(k, i, end);
    KeyLags(k, i + 2, j + 1, end);
    assert k[j..][1..] == k[j + 1..];
  }

  /** An escape that does not stand for a quotation mark lies within the key. */
  lemma {:induction false} TwoOfKey(k: string, i: nat, end: string)
    requires i < |k| && k[i] == '\\' && '"' !in k[..i] && Closes(end)
    requires |k[i..] + end| >= 2 && (k[i..] + end)[1] != '"'
    ensures i + 2 <= |k| && '"' !in k[..i + 2] && (k[i..] + end)[2..] == k[i + 2..] + end
  {
    Ahead(k, i, 1, end);
    NoQuoteAhead(k, i, 2);
    Ahead(k, i, 2, end);
  }

  lemma {:induction false} KeyLagsAfterHex(k: string, i: nat, j: nat, end: string)
    requires j <= i < |k| && k[i] == '\\' && '"' !in k[..i] && Closes(end)
    requires |k[i..] + end| >= 6 && (k[i..] + end)[1] == 'u' && HexEscape((k[i..] + end)[2..]).Some?
    ensures Misses((k[i..] + end)[6..], k[j..][1..])
    decreases |k| - i, 0
  {
    HexHasNoQuote(k[i..] + end);
    SixOfKey(k, i, end);
    KeyLags(k, i + 6, j + 1, end);
    assert k[j..][1..] == k[j + 1..];
  }

  lemma {:induction false} SixOfKey(k: string, i: nat, end: string)
    requires i < |k| && k[i] == '\\' && '"' !in k[..i] && Closes(end) && |k[i..] + end| >= 6
    requires forall n :: 1 <= n < 6 ==> (k[i..] + end)[n] != '"'
    ensures i + 6 <= |k| && '"' !in k[..i + 6] && (k[i..] + end)[6..] == k[i + 6..] + end
  {
    var t := k[i..] + end;
    assert t[|k| - i] == '"';
    assert forall n :: i < n < i + 6 ==> k[n] == t[n - i];
    NoQuoteAhead(k, i, 6);
    Ahead(k, i, 6, end);
  }

  predicate PlainKey(k: string) {
    forall i :: 0 <= i < |k| ==> Unescaped(k[i])
  }

  /** A key written as it is reads back exactly when it needs no escaping. */
  lemma {:induction false} KeyReadsBack(k: string, end: string)
    requires Closes(end)
    ensures PlainKey(k) ==> Chars(k + end) == Found(k, end[1..])
    ensures !PlainKey(k) ==> Misses(k + end, k)
  {
    var t := k + end;
    if k == "" {
      assert t == end;
    } else if Unescaped(k[0]) {
      assert t[1..] == k[1..] + end;
      KeyReadsBack(k[1..], end);
      assert PlainKey(k) <==> PlainKey(k[1..]) by {
        assert forall i :: 1 <= i < |k| ==> k[i] == k[1..][i - 1];
      }
      assert k == [k[0]] + k[1..];
      if !PlainKey(k) {
        CharsMisses(t, k);
      }
    } else if k[0] == '\\' {
      assert k[0..] == k;
      KeyLags(k, 0, 0, end);
    } else {
      CharsMisses(t, k);
    }
  }

  predicate NoControls(w: string) {
    forall n :: 0 <= n < |w| ==> w[n] >= ' '
  }

  function EscapedFrom(w: string, i: nat, end: string): string
    requires i <= |w|
  {
    EscapeAll(w[i..]) + end
  }

  /** What the escaped text looks like from a character on. */
  lemma {:induction false} EscapedStarts(w: string, i: nat, end: string)
    requires i <= |w| && Closes(end) && NoControls(w)
    ensures var t := EscapedFrom(w, i, end);
            if i == |w| then t == end
            else if w[i] == '"' then |t| >= 2 && t[0] == '\\' && t[1] == '"' && t[2..] == EscapedFrom(w, i + 1, end)
            else t != "" && t[0] == w[i] && t[1..] == EscapedFrom(w, i + 1, end)
  {
    if i < |w| {
      assert w[i..][0] == w[i] && w[i..][1..] == w[i + 1..];
      assert EscapedFrom(w, i, end) == Escaped(w[i]) + EscapedFrom(w, i + 1, end);
    } else {
      assert w[i..] == "";
    }
  }

  lemma {:induction false} NoQuoteBetween(w: string, p: nat, i: nat, n: nat)
    requires p <= i && i + n <= |w| && '"' !in w[p..i] && forall m :: i <= m < i + n ==> w[m] != '"'
    ensures '"' !in w[p..i + n]
  {
    assert forall m :: p <= m < i ==> w[m] == w[p..i][m - p];
  }

  lemma {:induction false} TextLags(w: string, p: nat, i: nat, j: nat, end: string)
    requires p <= j <= i <= |w| && (j < i || (i < |w| && w[i] == '\\'))
    requires '"' !in w[p..i] && NoControls(w) && Closes(end)
    ensures Misses(EscapedFrom(w, i, end), w[j..])
    decreases |w| - i, 2
  {
    assert j < i ==> w[j] == w[p..i][j - p];
    if i < |w| && w[i] == '\\' {
      BackslashLags(w, p, i, j, end);
    } else {
      if i < |w| && w[i] != '"' && w[i] == w[j] {
        NoQuoteBetween(w, p, i, 1);
        TextLags(w, p, i + 1, j + 1, end);
      }
      PlainLags(w, i, j, end);
    }
  }

  lemma {:induction false} PlainLags(w: string, i: nat, j: nat, end: string)
    requires j < i <= |w| && w[j] != '"' && NoControls(w) && Closes(end) && (i < |w| ==> w[i] != '\\')
    requires i < |w| && w[i] != '"' && w[i] == w[j] ==> Misses(EscapedFrom(w, i + 1, end), w[j + 1..])
    ensures Misses(EscapedFrom(w, i, end), w[j..])
  {
    EscapedStarts(w, i, end);
    assert w[j..][0] == w[j] && w[j..][1..] == w[j + 1..];
    CharsMisses(EscapedFrom(w, i, end), w[j..]);
  }

  lemma {:induction false} BackslashLags(w: string, p: nat, i: nat, j: nat, end: string)
    requires p <= j <= i < |w| && w[i] == '\\' && w[j] != '"'
    requires '"' !in w[p..i] && NoControls(w) && Closes(end)
    ensures Misses(EscapedFrom(w, i, end), w[j..])
    decreases |w| - i, 1
  {
    if i + 1 == |w| || w[i + 1] == '"' {
      BeforeQuote(w, i, j, end);
    } else {
      var t := EscapedFrom(w, i, end);
      BeforeOther(w, i, end);
      assert w[j..][0] == w[j] && w[j..][1..] == w[j + 1..];
      if SimpleEscape(t[1]) == Some(w[j]) {
        NoQuoteBetween(w, p, i, 2);
        TextLags(w, p, i + 2, j + 1, end);
      }
      if |t| >= 6 && t[1] == 'u' && HexEscape(t[2..]) == Some(w[j]) {
        TextLagsAfterHex(w, p, i, j, end);
      }
      CharsMisses(t, w[j..]);
    }
  }

  lemma {:induction false} TextLagsAfterHex(w: string, p: nat, i: nat, j: nat, end: string)
    requires p <= j <= i < |w| && w[i] == '\\' && '"' !in w[p..i] && NoControls(w) && Closes(end)
    requires var t := EscapedFrom(w, i, end); |t| >= 6 && t[1] == 'u' && HexEscape(t[2..]).Some?
    ensures Misses(EscapedFrom(w, i, end)[6..], w[j + 1..])
    decreases |w| - i, 0
  {
    HexHasNoQuote(EscapedFrom(w, i, end));
    SixOfText(w, i, end);
    NoQuoteBetween(w, p, i, 6);
    TextLags(w, p, i + 6, j + 1, end);
  }

  lemma {:induction false} BeforeOther(w: string, i: nat, end: string)
    requires i + 1 < |w| && w[i] == '\\' && w[i + 1] != '"' && NoControls(w) && Closes(end)
    ensures var t := EscapedFrom(w, i, end);
            |t| >= 2 && t[0] == '\\' && t[1] == w[i + 1] && t[2..] == EscapedFrom(w, i + 2, end)
  {
    EscapedStarts(w, i, end);
    EscapedStarts(w, i + 1, end);
    var t, u := EscapedFrom(w, i, end), EscapedFrom(w, i + 1, end);
    assert t[1] == u[0] && t[2..] == u[1..];
  }

  /** A backslash that meets the closing quotation mark or an escaped one. */
  lemma {:induction false} BeforeQuote(w: string, i: nat, j: nat, end: string)
    requires j <= i < |w| && w[i] == '\\' && w[j] != '"' && (i + 1 == |w| || w[i + 1] == '"')
    requires NoControls(w) && Closes(end)
    ensures Misses(EscapedFrom(w, i, end), w[j..])
  {
    EscapedStarts(w, i, end);
    EscapedStarts(w, i + 1, end);
    var t, u := EscapedFrom(w, i, end), EscapedFrom(w, i + 1, end);
    assert t[1] == u[0] && t[2..] == u[1..];
    if i + 1 < |w| {
      assert u[1..][0] == '"';
      QuoteMisses(u[1..], w[j..][1..]);
    }
    CharsMisses(t, w[j..]);
  }

  lemma {:induction false} QuoteMisses(t: string, target: string)
    requires Closes(t) && target != ""
    ensures Misses(t, target)
  {
  }

  lemma {:induction false} SixOfText(w: string, i: nat, end: string)
    requires i < |w| && w[i] == '\\' && NoControls(w) && Closes(end) && |EscapedFrom(w, i, end)| >= 6
    requires forall n :: 1 <= n < 6 ==> EscapedFrom(w, i, end)[n] != '"' && EscapedFrom(w, i, end)[n] != '\\'
    ensures i + 6 <= |w| && EscapedFrom(w, i, end)[6..] == EscapedFrom(w, i + 6, end)
    ensures forall m :: i <= m < i + 6 ==> w[m] != '"'
  {
    EscapedStarts(w, i, end);
    var t, u := EscapedFrom(w, i, end), EscapedFrom(w, i + 1, end);
    assert forall n :: 0 <= n < 5 ==> u[n] == t[n + 1];
    PlainPrefix(w, i + 1, 5, end);
    assert t[6..] == u[5..];
  }

  /** Characters without quotes and backslashes come from as many characters of the text. */
  lemma {:induction false} PlainPrefix(w: string, i: nat, n: nat, end: string)
    requires i <= |w| && NoControls(w) && Closes(end) && n <= |EscapedFrom(w, i, end)|
    requires forall m :: 0 <= m < n ==> EscapedFrom(w, i, end)[m] != '"' && EscapedFrom(w, i, end)[m] != '\\'
    ensures i + n <= |w| && EscapedFrom(w, i, end)[n..] == EscapedFrom(w, i + n, end)
    ensures forall m :: i <= m < i + n ==> w[m] != '"'
    decreases n
  {
    if n > 0 {
      EscapedStarts(w, i, end);
      var t, u := EscapedFrom(w, i, end), EscapedFrom(w, i + 1, end);
      assert t[0] != '"';
      PlainStep(t, u, n);
      PlainPrefix(w, i + 1, n - 1, end);
    }
  }

  lemma {:induction false} PlainStep(t: string, u: string, n: nat)
    requires 0 < n <= |t| && t[1..] == u && forall m :: 0 <= m < n ==> t[m] != '"' && t[m] != '\\'
    ensures n - 1 <= |u| && t[n..] == u[n - 1..]
    ensures forall m :: 0 <= m < n - 1 ==> u[m] != '"' && u[m] != '\\'
  {
    assert forall m :: 0 <= m < n - 1 ==> u[m] == t[m + 1];
  }

  /** An escaped text without control characters reads back exactly when it holds no backslash. */
  lemma {:induction false} TextReadsBack(w: string, i: nat, end: string)
    requires i <= |w| && NoControls(w) && Closes(end)
    ensures '\\' !in w[i..] ==> Chars(EscapedFrom(w, i, end)) == Found(w[i..], end[1..])
    ensures '\\' in w[i..] ==> Misses(EscapedFrom(w, i, end), w[i..])
    decreases |w| - i
  {
    EscapedStarts(w, i, end);
    if i < |w| {
      assert w[i..] == [w[i]] + w[i + 1..];
      if w[i] == '\\' {
        assert w[i..i] == "";
        TextLags(w, i, i, i, end);
      } else {
        TextReadsBack(w, i + 1, end);
        if '\\' in w[i..] {
          CharsMisses(EscapedFrom(w, i, end), w[i..]);
        }
      }
    }
  }

  // ---------------------------------------------------------------------------------------------
  // Numbers

  lemma {:induction false} DigitRunOf(a: string, rest: string)
    requires forall i :: 0 <= i < |a| ==> IsDigit(a[i])
    requires rest == "" || !IsDigit(rest[0])
    ensures DigitRun(a + rest) == |a|
  {
    var s := a + rest;
    if a == "" {
      assert s == rest;
    } else {
      assert s[0] == a[0] && s[1..] == a[1..] + rest;
      DigitRunOf(a[1..], rest);
    }
  }

  lemma {:induction false} NoLeadingZero(n: nat)
    ensures n > 0 ==> Decimal(n)[0] != '0'
  {
    if n >= 10 {
      NoLeadingZero(n / 10);
    }
  }

  /** A numeral without superfluous zeros is the integer part of a number. */
  lemma {:induction false} DecimalIsInt(n: nat, rest: string)
    requires rest == "" || !IsDigit(rest[0])
    ensures IntLength(Decimal(n) + rest) == |Decimal(n)|
  {
    NoLeadingZero(n);
    DigitRunOf(Decimal(n), rest);
    if n == 0 {
      assert Decimal(0) == "0";
    }
    assert (Decimal(n) + rest)[0] == Decimal(n)[0];
  }

  /** What follows a member: a comma or the closing brace. */
  predicate Ends(rest: string) {
    rest != "" && (rest[0] == ',' || rest[0] == '}')
  }

  predicate IsFraction(frac: string) {
    frac == "" || (|frac| > 1 && frac[0] == '.' && forall i :: 1 <= i < |frac| ==> IsDigit(frac[i]))
  }

  lemma {:induction false} SixDigitsAreAFraction(n: nat)
    ensures IsFraction("." + SixDigits(n))
  {
  }

  lemma {:induction false} NumberOf(s: string, minus: nat, n: nat, m: nat)
    requires minus <= n <= m <= |s| && minus == (if s != "" && s[0] == '-' then 1 else 0)
    requires n > minus && IntLength(s[minus..]) == n - minus
    requires FracLength(s[n..]) == m - n && ExpLength(s[m..]) == 0
    ensures Number(s) == Found(s[..m], s[m..])
  {
    assert NumberEnd(s, n) == m;
  }

  /** A sign, a numeral and a fraction, which may be empty, are a number. */
  lemma {:induction false} NumberReadsBack(negative: bool, n: nat, frac: string, rest: string)
    requires Ends(rest) && IsFraction(frac)
    ensures var text := Sign(negative) + Decimal(n) + frac;
            Number(text + rest) == Found(text, rest)
  {
    var sign, digits := Sign(negative), Decimal(n);
    var s := sign + digits + frac + rest;
    Slices(sign, digits, frac, rest);
    assert s[0] == (if negative then '-' else digits[0]);
    assert frac + rest != "" && !IsDigit((frac + rest)[0]);
    DecimalIsInt(n, frac + rest);
    FractionLength(frac, rest);
    NumberOf(s, |sign|, |sign| + |digits|, |sign| + |digits| + |frac|);
  }

  lemma {:induction false} Slices(a: string, b: string, c: string, d: string)
    ensures var s := a + b + c + d;
            && s[|a|..] == b + (c + d) && s[|a| + |b|..] == c + d
            && s[|a| + |b| + |c|..] == d && s[..|a| + |b| + |c|] == a + b + c
  {
  }

  lemma {:induction false} FractionLength(frac: string, rest: string)
    requires Ends(rest) && IsFraction(frac)
    ensures FracLength(frac + rest) == |frac| && ExpLength(rest) == 0
  {
    if frac == "" {
      assert frac + rest == rest;
    } else {
      assert (frac + rest)[1..] == frac[1..] + rest;
      DigitRunOf(frac[1..], rest);
    }
  }

  /** The integer a numeral without a fraction stands for. */
  function NumeralValue(s: string): int {
    if s != "" && s[0] == '-' then -(DigitsValue(s[1..]) as int) else DigitsValue(s)
  }

  function DigitsValue(s: string): nat {
    if s == "" || !IsDigit(s[|s| - 1]) then 0 else DigitsValue(s[..|s| - 1]) * 10 + (s[|s| - 1] - '0') as nat
  }

  lemma {:induction false} DecimalStandsForItself(n: nat)
    ensures DigitsValue(Decimal(n)) == n
  {
    var s := Decimal(n);
    if n < 10 {
      assert s[..|s| - 1] == "";
    } else {
      DecimalStandsForItself(n / 10);
      assert s[..|s| - 1] == Decimal(n / 10);
    }
  }

  /** The numeral printed for an integer stands for that integer. */
  lemma {:induction false} NumeralStandsForInt(v: int)
    ensures NumeralValue(IntText(v)) == v
  {
    DecimalStandsForItself(if v < 0 then -v else v);
    if v < 0 {
      assert IntText(v)[1..] == Decimal(-v);
    }
  }

  lemma {:induction false} DigitsSnoc(s: string, d: nat)
    requires d < 10
    ensures DigitsValue(s + [Digit(d)]) == DigitsValue(s) * 10 + d
  {
    assert (s + [Digit(d)])[..|s|] == s;
  }

  /** The six digits of the millionths stand for them. */
  lemma {:induction false} SixDigitsStandForMicros(n: nat)
    requires n < 1_000_000
    ensures DigitsValue(SixDigits(n)) == n && |SixDigits(n)| == 6
  {
    var a, b, c := n / 100000 % 10, n / 10000 % 10, n / 1000 % 10;
    var d, e, f := n / 100 % 10, n / 10 % 10, n % 10;
    assert SixDigits(n) == "" + [Digit(a)] + [Digit(b)] + [Digit(c)] + [Digit(d)] + [Digit(e)] + [Digit(f)];
    DigitsSnoc("", a);
    DigitsSnoc("" + [Digit(a)], b);
    DigitsSnoc("" + [Digit(a)] + [Digit(b)], c);
    DigitsSnoc("" + [Digit(a)] + [Digit(b)] + [Digit(c)], d);
    DigitsSnoc("" + [Digit(a)] + [Digit(b)] + [Digit(c)] + [Digit(d)], e);
    DigitsSnoc("" + [Digit(a)] + [Digit(b)] + [Digit(c)] + [Digit(d)] + [Digit(e)], f);
    ByDigits(n);
  }

  lemma {:induction false} ByDigits(n: nat)
    requires n < 1_000_000
    ensures n == ((((n / 100000 % 10 * 10 + n / 10000 % 10) * 10 + n / 1000 % 10) * 10 + n / 100 % 10) * 10
                  + n / 10 % 10) * 10 + n % 10
  {
    assert n / 10 / 10 == n / 100 && n / 100 / 10 == n / 1000 && n / 1000 / 10 == n / 10000;
    assert n / 10000 / 10 == n / 100000;
  }

  /** The numeral printed for a float: its sign, its whole part, and six digits for its millionths behind one dot. */
  lemma {:induction false} NumeralStandsForFloat(negative: bool, whole: nat, micros: nat)
    requires micros < 1_000_000
    ensures exists digits, fraction ::
              && FloatText(Finite(negative, whole, micros)) == (if negative then "-" else "") + digits + "." + fraction
              && '.' !in digits && DigitsValue(digits) == whole && |fraction| == 6 && DigitsValue(fraction) == micros
  {
    DecimalStandsForItself(whole);
    SixDigitsStandForMicros(micros);
    assert '.' !in Decimal(whole);
    assert FloatText(Finite(negative, whole, micros))
        == (if negative then "-" else "") + Decimal(whole) + "." + SixDigits(micros);
  }

  lemma {:induction false} IntReadsBack(v: int, rest: string)
    requires Ends(rest)
    ensures Number(IntText(v) + rest) == Found(IntText(v), rest)
  {
    NumberReadsBack(v < 0, if v < 0 then -v else v, "", rest);
    IntTextParts(v);
  }

  lemma {:induction false} IntTextParts(v: int)
    ensures IntText(v) == Sign(v < 0) + Decimal(if v < 0 then -v else v) + ""
  {
    assert v >= 0 ==> "" + Decimal(v) + "" == Decimal(v);
  }

  lemma {:induction false} FloatReadsBack(f: Float, rest: string)
    requires Ends(rest) && f.Finite?
    ensures Number(FloatText(f) + rest) == Found(FloatText(f), rest)
  {
    SixDigitsAreAFraction(f.micros);
    NumberReadsBack(f.negative, f.whole, "." + SixDigits(f.micros), rest);
    Regroup(Sign(f.negative) + Decimal(f.whole), ".", SixDigits(f.micros));
  }

  lemma {:induction false} Regroup(a: string, b: string, c: string)
    ensures a + b + c == a + (b + c)
  {
  }

  lemma {:induction false} NonFiniteFails(f: Float, rest: string)
    requires !f.Finite?
    ensures AnyValue(FloatText(f) + rest).Failed?
  {
    var s := FloatText(f) + rest;
    var minus := if f.negative then 1 else 0;
    assert s[minus] == 'i' || s[minus] == 'n';
    assert s[minus..][0] == s[minus];
    assert minus == 0 && f.NotANumber? ==> s[1] == 'a';
    assert |s| >= 4 ==> s[..4][1] == s[1];
    assert |s| >= 4 ==> s[..4][0] == s[0];
    assert |s| >= 5 ==> s[..5][0] == s[0];
  }

  // ---------------------------------------------------------------------------------------------
  // Members and objects

  /** What a datum reads back as. */
  function Expected(d: Datum): Value {
    match d
    case Int32(v) => JNumber(IntText(v))
    case Floating(f) => JNumber(FloatText(f))
    case Str(s) => JString(Kept(s, 0))
    case Boolean(v) => JBool(v != 0)
  }

  predicate GoodDatum(d: Datum) {
    match d
    case Floating(f) => f.Finite?
    case Str(s) => '\\' !in Kept(s, 0)
    case _ => true
  }

  predicate Good(p: Pair) {
    PlainKey(p.key) && GoodDatum(p.datum)
  }

  function ExpectedMember(p: Pair): Member {
    Member(p.key, Expected(p.datum))
  }

  function ExpectedMembers(ps: seq<Pair>): (ms: seq<Member>)
    ensures |ms| == |ps|
  {
    if ps == [] then [] else [ExpectedMember(ps[0])] + ExpectedMembers(ps[1..])
  }

  lemma {:induction false} ValueReadsBack(d: Datum, rest: string)
    requires Ends(rest)
    ensures GoodDatum(d) ==> AnyValue(DatumText(d) + rest) == Found(Expected(d), rest)
    ensures !GoodDatum(d) ==> var r := AnyValue(DatumText(d) + rest); !(r.Found? && r.item == Expected(d))
  {
    match d
    case Int32(v) =>
      IntReadsBack(v, rest);
      NumeralFirst(IntText(v), rest);
    case Floating(f) =>
      if f.Finite? {
        FloatReadsBack(f, rest);
        NumeralFirst(FloatText(f), rest);
      } else {
        NonFiniteFails(f, rest);
      }
    case Boolean(v) => BoolReadsBack(v, rest);
    case Str(t) => QuotedReadsBack(t, rest);
  }

  lemma {:induction false} BoolReadsBack(v: int, rest: string)
    ensures AnyValue(DatumText(Boolean(v)) + rest) == Found(JBool(v != 0), rest)
  {
    var s := DatumText(Boolean(v)) + rest;
    if v != 0 {
      assert s[..4] == "true" && s[4..] == rest;
    } else {
      assert s[..5] == "false" && s[5..] == rest;
      assert s[..4][0] == 'f';
    }
  }

  lemma {:induction false} StringValue(s: string)
    requires s != "" && s[0] == '"'
    ensures AnyValue(s) == match Chars(s[1..])
                           case Failed => Failed
                           case Found(text, rest) => Found(JString(text), rest)
  {
  }

  lemma {:induction false} QuotedText(t: string, rest: string)
    ensures var s := DatumText(Str(t)) + rest;
            s != "" && s[0] == '"' && s[1..] == Escape(t, 0) + ("\"" + rest)
  {
  }

  lemma {:induction false} KeptReadsBack(t: string, end: string)
    requires Closes(end)
    ensures var s, w := Escape(t, 0) + end, Kept(t, 0);
            if '\\' !in w then Chars(s) == Found(w, end[1..]) else Misses(s, w)
  {
    LongestPrefixKept(t, 0);
    PrintableClean(t[..Taken(t, 0)]);
    assert Kept(t, 0)[0..] == Kept(t, 0);
    TextReadsBack(Kept(t, 0), 0, end);
  }

  lemma {:induction false} QuotedReadsBack(t: string, rest: string)
    ensures var r := AnyValue(DatumText(Str(t)) + rest);
            if '\\' !in Kept(t, 0) then r == Found(JString(Kept(t, 0)), rest)
            else !(r.Found? && r.item == JString(Kept(t, 0)))
  {
    QuotedText(t, rest);
    StringValue(DatumText(Str(t)) + rest);
    KeptReadsBack(t, "\"" + rest);
    assert ("\"" + rest)[1..] == rest;
  }

  /** A text that begins with a digit or a minus is tried as a number. */
  lemma {:induction false} NumeralFirst(a: string, rest: string)
    requires a != "" && (a[0] == '-' || IsDigit(a[0]))
    ensures AnyValue(a + rest) == match Number(a + rest)
                                  case Failed => Failed
                                  case Found(numeral, left) => Found(JNumber(numeral), left)
  {
    var s := a + rest;
    assert s[0] == a[0];
    NoWord(s);
  }

  lemma {:induction false} NoWord(s: string)
    requires s != "" && s[0] != 't' && s[0] != 'f' && s[0] != 'n'
    ensures |s| >= 4 ==> s[..4] != "true" && s[..4] != "null"
    ensures |s| >= 5 ==> s[..5] != "false"
  {
    assert |s| >= 4 ==> s[..4][0] == s[0];
    assert |s| >= 5 ==> s[..5][0] == s[0];
  }

  /** What follows the name of a member. */
  predicate Separates(after: string, value: string) {
    && |after| >= 3 && after[0] == '"' && after[1] == ':' && after[2] == ' ' && after[3..] == value
    && value != "" && !IsWs(value[0])
  }

  lemma {:induction false} MemberOf(s: string, key: string, after: string, value: string)
    requires s != "" && s[0] == '"' && s[1..] == key + after && Separates(after, value)
    ensures Json.Str(SkipWs(s)) == Chars(key + after)
    ensures SkipWs(after[1..]) == after[1..] && after[1..][0] == ':' && SkipWs(after[1..][1..]) == value
  {
    var colon := after[1..];
    assert colon[0] == ':' && colon[1..][0] == ' ' && colon[1..][1..] == value;
  }

  lemma {:induction false} MemberReadsBack(p: Pair, rest: string)
    requires Ends(rest)
    ensures Good(p) ==> OneMember(PairText(p) + rest) == Found(ExpectedMember(p), rest)
    ensures !Good(p) ==>
              var r := OneMember(PairText(p) + rest);
              !(r.Found? && r.item == ExpectedMember(p))
  {
    var value := DatumText(p.datum) + rest;
    var after := "\": " + value;
    PairParts(p, rest);
    KeyReadsBack(p.key, after);
    ValueReadsBack(p.datum, rest);
    MemberOf(PairText(p) + rest, p.key, after, value);
  }

  lemma {:induction false} PairParts(p: Pair, rest: string)
    ensures var s, value := PairText(p) + rest, DatumText(p.datum) + rest;
            s != "" && s[0] == '"' && s[1..] == p.key + ("\": " + value) && Separates("\": " + value, value)
  {
    DatumStart(p.datum);
    ThreeParts("\"", p.key, "\": ", DatumText(p.datum), rest);
    assert ("\": " + (DatumText(p.datum) + rest))[3..] == DatumText(p.datum) + rest;
  }

  lemma {:induction false} ThreeParts(quote: string, key: string, sep: string, text: string, rest: string)
    requires |quote| == 1
    ensures (quote + key + sep + text + rest)[1..] == key + (sep + (text + rest))
  {
  }

  lemma {:induction false} DatumStart(d: Datum)
    ensures DatumText(d) != "" && !IsWs(DatumText(d)[0])
  {
  }

  lemma {:induction false} MembersUnfold(s: string, m: Member, rest: string)
    requires OneMember(s) == Found(m, rest) && Ends(rest)
    ensures rest[0] == '}' ==> Members(s) == Found([m], rest[1..])
    ensures rest[0] == ',' ==> Members(s) == match Members(rest[1..])
                                             case Failed => Failed
                                             case Found(more, end) => Found([m] + more, end)
  {
  }

  lemma {:induction false} MembersWrong(s: string, m: Member)
    requires var r := OneMember(s); !(r.Found? && r.item == m)
    ensures var r := Members(s); r.Found? ==> r.item != [] && r.item[0] != m
  {
  }

  predicate AllGood(ps: seq<Pair>) {
    forall n :: 0 <= n < |ps| ==> Good(ps[n])
  }

  predicate ReadsAs(s: string, ps: seq<Pair>, good: bool) {
    if good then Members(s) == Found(ExpectedMembers(ps), "")
    else !(Members(s).Found? && Members(s).item == ExpectedMembers(ps))
  }

  lemma {:induction false} LastMember(ps: seq<Pair>, s: string)
    requires |ps| == 1
    requires Good(ps[0]) ==> OneMember(s) == Found(ExpectedMember(ps[0]), "}")
    requires !Good(ps[0]) ==> var r := OneMember(s); !(r.Found? && r.item == ExpectedMember(ps[0]))
    ensures if Good(ps[0]) then Members(s) == Found(ExpectedMembers(ps), "")
            else var r := Members(s); !(r.Found? && r.item == ExpectedMembers(ps))
  {
    if Good(ps[0]) {
      MembersUnfold(s, ExpectedMember(ps[0]), "}");
      assert [ExpectedMember(ps[0])] + [] == [ExpectedMember(ps[0])];
      assert ps[1..] == [];
    } else {
      MembersWrong(s, ExpectedMember(ps[0]));
    }
  }

  lemma {:induction false} FirstMember(ps: seq<Pair>, s: string, body: string)
    requires |ps| > 1
    requires Good(ps[0]) ==> OneMember(s) == Found(ExpectedMember(ps[0]), "," + body)
    requires !Good(ps[0]) ==> var r := OneMember(s); !(r.Found? && r.item == ExpectedMember(ps[0]))
    requires ReadsAs(body, ps[1..], AllGood(ps[1..]))
    ensures ReadsAs(s, ps, AllGood(ps))
  {
    AllGoodFirst(ps);
    if Good(ps[0]) {
      MembersUnfold(s, ExpectedMember(ps[0]), "," + body);
      assert ("," + body)[1..] == body;
      Prefixed(ExpectedMember(ps[0]), Members(body), ExpectedMembers(ps[1..]));
    } else {
      MembersWrong(s, ExpectedMember(ps[0]));
    }
  }

  lemma {:induction false} AllGoodFirst(ps: seq<Pair>)
    requires ps != []
    ensures AllGood(ps) <==> Good(ps[0]) && AllGood(ps[1..])
  {
    assert forall n :: 1 <= n < |ps| ==> ps[n] == ps[1..][n - 1];
  }

  lemma {:induction false} Prefixed(m: Member, r: Parsed<seq<Member>>, ms: seq<Member>)
    ensures r.Found? ==> ([m] + r.item == [m] + ms <==> r.item == ms)
  {
    if r.Found? {
      assert ([m] + r.item)[1..] == r.item && ([m] + ms)[1..] == ms;
    }
  }

  /** The members read back as the expected ones exactly when all pairs are good. */
  lemma {:induction false} MembersReadBack(ps: seq<Pair>)
    requires ps != []
    ensures ReadsAs(Joined(Texts(ps)) + "}", ps, AllGood(ps))
  {
    TextsFirst(ps);
    if |ps| == 1 {
      MemberReadsBack(ps[0], "}");
      LastMember(ps, PairText(ps[0]) + "}");
    } else {
      var body := Joined(Texts(ps[1..])) + "}";
      MembersReadBack(ps[1..]);
      MemberReadsBack(ps[0], "," + body);
      FirstMember(ps, PairText(ps[0]) + ("," + body), body);
    }
  }

  lemma {:induction false} JoinedFirst(texts: seq<string>)
    requires texts != []
    ensures Joined(texts) + "}" == texts[0] + (if |texts| == 1 then "}" else "," + (Joined(texts[1..]) + "}"))
  {
  }

  lemma {:induction false} TextsFirst(ps: seq<Pair>)
    requires ps != []
    ensures Joined(Texts(ps)) + "}"
            == PairText(ps[0]) + (if |ps| == 1 then "}" else "," + (Joined(Texts(ps[1..])) + "}"))
  {
    MapTail(PairText, ps);
    JoinedFirst(Texts(ps));
  }

  lemma {:induction false} ObjectOf(body: string)
    requires body != "" && body[0] == '"'
    ensures Object("{" + body) == match Members(body)
                                  case Failed => None
                                  case Found(members, rest) => if SkipWs(rest) == "" then Some(members) else None
  {
    assert ("{" + body)[1..] == body;
  }

  lemma {:induction false} EmptyObject(body: string)
    requires |body| == 1 && body[0] == '}'
    ensures Object("{" + body) == Some([])
  {
    assert ("{" + body)[1..] == body;
  }

  lemma {:induction false} RenderReadsBack(ps: seq<Pair>)
    ensures Object(Render(ps)) == Some(ExpectedMembers(ps)) <==> AllGood(ps)
  {
    var body := Joined(Texts(ps)) + "}";
    assert Render(ps) == "{" + body;
    if ps == [] {
      EmptyObject(body);
    } else {
      MembersReadBack(ps);
      StartsWithQuote(ps);
      ObjectOf(body);
    }
  }

  lemma {:induction false} StartsWithQuote(ps: seq<Pair>)
    requires ps != []
    ensures var body := Joined(Texts(ps)) + "}"; body != "" && body[0] == '"'
  {
    TextsFirst(ps);
    PairTextStarts(ps[0]);
  }

  /**
   Whatever calls were made on an empty buffer, the buffer is NUL-terminated within its 1024 characters; and once it is
   not empty, a JSON parser returns exactly the accepted pairs in order, texts as the kept prefix, if and only if no
   accepted key needs escaping, no kept text holds a backslash, and every float was finite.
   */
  lemma {:induction false} BuiltReadsBack(calls: seq<Call>)
    ensures |Built(calls)| < MAX_MESSAGE_SIZE
    ensures Built(calls) != "" ==>
              (Object(Built(calls)) == Some(ExpectedMembers(Accepted(calls)))
               <==> AllGood(Accepted(calls)))
  {
    BuiltIsRender(calls);
    RenderReadsBack(Accepted(calls));
  }

  /** One call on an empty buffer. */
  function Once(key: string, d: Datum): seq<Call> {
    [Call(Some(key), Given(d))]
  }

  lemma {:induction false} OneCallIsAccepted(key: string, d: Datum)
    requires key != "" && |Snippet(key, d)| < SNIPPET_SIZE
    ensures Accepted(Once(key, d)) == [Pair(key, d)] && Built(Once(key, d)) != ""
  {
    CallIsAcceptedIff([], Some(key), Given(d));
    assert [] + Once(key, d) == Once(key, d);
    assert Built([]) == "" && Accepted([]) == [] && Joined([PairText(Pair(key, d))]) == Snippet(key, d);
    assert Texts([Pair(key, d)]) == [PairText(Pair(key, d))] && [] + [Pair(key, d)] == [Pair(key, d)];
    BuiltIsRender(Once(key, d));
    assert Render([Pair(key, d)]) != "";
  }

  /** An accepted pair that is not good makes an object that does not read back. */
  lemma {:induction false} BadPairIsLost(key: string, d: Datum)
    requires key != "" && |Snippet(key, d)| < SNIPPET_SIZE && !Good(Pair(key, d))
    ensures var calls := Once(key, d);
            Accepted(calls) == [Pair(key, d)] && Object(Built(calls)) != Some(ExpectedMembers(Accepted(calls)))
  {
    OneCallIsAccepted(key, d);
    BuiltReadsBack(Once(key, d));
    assert !Good([Pair(key, d)][0]);
  }

  /** A key with a quotation mark, a text with a backslash and an infinite float are accepted and do not read back. */
  lemma {:induction false} ThreeLostPairs()
    ensures forall pair ::
              pair in [Pair("\"", Int32(1)), Pair("a", Str("\\")), Pair("a", Floating(Infinite(false)))] ==>
              var calls := Once(pair.key, pair.datum);
              Accepted(calls) == [pair] && Object(Built(calls)) != Some(ExpectedMembers(Accepted(calls)))
  {
    QuoteInKey();
    BackslashInText();
    BadPairIsLost("a", Floating(Infinite(false)));
  }

  lemma {:induction false} QuoteInKey()
    ensures var calls := Once("\"", Int32(1));
            Accepted(calls) == [Pair("\"", Int32(1))] && Object(Built(calls)) != Some(ExpectedMembers(Accepted(calls)))
  {
    assert !Unescaped("\""[0]);
    assert Decimal(1) == "1";
    BadPairIsLost("\"", Int32(1));
  }

  lemma {:induction false} BackslashInText()
    ensures var calls := Once("a", Str("\\"));
            Accepted(calls) == [Pair("a", Str("\\"))] && Object(Built(calls)) != Some(ExpectedMembers(Accepted(calls)))
  {
    var text := "\\";
    assert text[1..] == "";
    assert Kept(text, 0) == [text[0]] + Kept(text[1..], 1);
    assert Escape(text, 0) == [text[0]] + Escape(text[1..], 1);
    assert Kept(text, 0)[0] == '\\';
    BadPairIsLost("a", Str(text));
  }
}
