/** Searching in strings as `std::string` does, and decimal numerals. */
module Text {
  import opened Prelude

  /** `m` stands in `s` at position `i`. */
  predicate At(s: string, m: string, i: int) {
    0 <= i && i + |m| <= |s| && forall j :: 0 <= j < |m| ==> s[i + j] == m[j]
  }

  /** Where two strings agree, the same things stand. */
  lemma {:induction false} AtAgree(s: string, i: nat, s': string, i': nat, m: string)
    requires i + |m| <= |s| && i' + |m| <= |s'|
    requires forall j :: i <= j < i + |m| ==> s[j] == s'[j - i + i']
    ensures At(s, m, i) == At(s', m, i')
  {
    if At(s, m, i) {
      forall j | 0 <= j < |m| ensures s'[i' + j] == m[j] {
        assert s[i + j] == m[j];
      }
    }
  }

  predicate Starts(s: string, m: string)
    ensures Starts(s, m) ==> |m| <= |s|
  {
    m == "" || (s != "" && s[0] == m[0] && Starts(s[1..], m[1..]))
  }

  lemma {:induction false} StartsIsAt(s: string, m: string)
    ensures Starts(s, m) <==> At(s, m, 0)
  {
    if m != "" && s != "" {
      StartsIsAt(s[1..], m[1..]);
      if At(s, m, 0) {
        forall j | 0 <= j < |m[1..]| ensures s[1..][0 + j] == m[1..][j] {
          assert s[0 + (j + 1)] == m[j + 1];
        }
      } else if Starts(s, m) {
        forall j | 0 <= j < |m| ensures s[0 + j] == m[j] {
          assert j > 0 ==> s[1..][0 + (j - 1)] == m[1..][j - 1];
        }
      }
    }
  }

  /** `s.find(m)`: the first place where `m` stands. */
  function Find(s: string, m: string): (r: Option<nat>)
    ensures r.Some? ==> r.value + |m| <= |s|
  {
    if Starts(s, m) then Some(0)
    else if s == "" then None
    else match Find(s[1..], m)
      case None => None
      case Some(i) => Some(i + 1)
  }

  lemma {:induction false} FindIsFirst(s: string, m: string)
    ensures match Find(s, m)
            case Some(pos) => At(s, m, pos) && forall i :: 0 <= i < pos ==> !At(s, m, i)
            case None => forall i :: 0 <= i <= |s| ==> !At(s, m, i)
  {
    StartsIsAt(s, m);
    if !Starts(s, m) && s != "" {
      FindIsFirst(s[1..], m);
      FindShift(s, m);
    }
  }

  lemma {:induction false} FindShift(s: string, m: string)
    requires s != ""
    ensures forall i :: 1 <= i <= |s| ==> At(s, m, i) == At(s[1..], m, i - 1)
  {
    forall i | 1 <= i <= |s| ensures At(s, m, i) == At(s[1..], m, i - 1) {
      if i + |m| <= |s| {
        AtAgree(s, i, s[1..], i - 1, m);
      }
    }
  }

  lemma {:induction false} FindFirst(s: string, m: string, pos: nat)
    requires At(s, m, pos) && forall i :: 0 <= i < pos ==> !At(s, m, i)
    ensures Find(s, m) == Some(pos)
  {
    FindIsFirst(s, m);
  }

  /** The C string at the start of a buffer. */
  function CStr(s: seq<char>): string {
    if s == [] || s[0] == '\0' then "" else [s[0]] + CStr(s[1..])
  }

  predicate IsGap(c: char) {
    c == ':' || c == ' ' || c == '\t'
  }

  /** `s.find_first_not_of(": \t")`. */
  function FindNotGap(s: string): (r: Option<nat>)
    ensures r.Some? ==> r.value < |s|
  {
    if s == "" then None
    else if !IsGap(s[0]) then Some(0)
    else match FindNotGap(s[1..])
      case None => None
      case Some(i) => Some(i + 1)
  }

  lemma {:induction false} FindNotGapIsFirst(s: string)
    ensures match FindNotGap(s)
            case Some(pos) => !IsGap(s[pos]) && forall i :: 0 <= i < pos ==> IsGap(s[i])
            case None => forall i :: 0 <= i < |s| ==> IsGap(s[i])
  {
    if s != "" && IsGap(s[0]) {
      FindNotGapIsFirst(s[1..]);
      assert forall i :: 1 <= i < |s| ==> s[i] == s[1..][i - 1];
    }
  }

  /** `s.find('#')`. */
  function FindHash(s: string): (r: Option<nat>)
    ensures r.Some? ==> r.value < |s|
  {
    if s == "" then None
    else if s[0] == '#' then Some(0)
    else match FindHash(s[1..])
      case None => None
      case Some(i) => Some(i + 1)
  }

  lemma {:induction false} FindHashIsFirst(s: string)
    ensures match FindHash(s)
            case Some(pos) => s[pos] == '#' && forall i :: 0 <= i < pos ==> s[i] != '#'
            case None => forall i :: 0 <= i < |s| ==> s[i] != '#'
  {
    if s != "" && s[0] != '#' {
      FindHashIsFirst(s[1..]);
      assert forall i :: 1 <= i < |s| ==> s[i] == s[1..][i - 1];
    }
  }

  function Spaces(n: nat): (s: string)
    ensures |s| == n && forall i :: 0 <= i < n ==> s[i] == ' '
  {
    seq(n, _ => ' ')
  }

  predicate IsBlank(c: char) {
    c == ' ' || c == '\t' || c == '\n' || c == '\r'
  }

  function TrimRight(s: string): (r: string)
    ensures r <= s && (r != "" ==> !IsBlank(r[|r| - 1]))
    ensures forall i :: |r| <= i < |s| ==> IsBlank(s[i])
  {
    if s != "" && IsBlank(s[|s| - 1]) then TrimRight(s[..|s| - 1]) else s
  }

  /** The numeral that "%u" prints. */
  function Decimal(n: nat): (s: string)
    ensures s != "" && forall i :: 0 <= i < |s| ==> '0' <= s[i] <= '9'
  {
    if n < 10 then [Digit(n)] else Decimal(n / 10) + [Digit(n % 10)]
  }

  function Digit(n: nat): (c: char)
    requires n < 10
    ensures '0' <= c <= '9' && (c - '0') as int == n
  {
    '0' + n as char
  }

  lemma {:induction false} DecimalInjective(m: nat, n: nat)
    requires Decimal(m) == Decimal(n)
    ensures m == n
  {
    if m < 10 && n < 10 {
      assert Decimal(m)[0] == Decimal(n)[0];
    } else if m >= 10 && n >= 10 {
      var a, b := Decimal(m), Decimal(n);
      assert a[|a| - 1] == Digit(m % 10) && b[|b| - 1] == Digit(n % 10);
      assert a[..|a| - 1] == Decimal(m / 10) && b[..|b| - 1] == Decimal(n / 10);
      DecimalInjective(m / 10, n / 10);
    }
  }
}
