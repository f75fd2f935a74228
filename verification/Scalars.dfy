/** What the conversions of scalars make of numerals and of the words for truth values. */
module Scalars {
  import opened Prelude
  import opened Text
  import opened Yaml

  /** What is read from a text, or another value if none is given. */
  function Chosen<T>(text: Option<string>, read: string -> T, otherwise: T): T {
    match text
    case Some(t) => read(t)
    case None => otherwise
  }

  /** A text cut to a buffer of `size` characters with its NUL. */
  function Cut(size: nat): string -> string
    requires size > 0
  {
    text => if |text| < size then text else text[..size - 1]
  }

  /** A sign and a numeral between blanks and other text. */
  function NumeralText(blanks: string, sign: string, n: nat, rest: string): string {
    blanks + (sign + (Decimal(n) + rest))
  }

  function Signed(sign: string, n: nat): int {
    var i: int := n;
    if sign == "-" then -i else i
  }

  /** The nearest number of 64 bits. */
  function Clamp(i: int): int {
    if i > 0x7FFF_FFFF_FFFF_FFFF then 0x7FFF_FFFF_FFFF_FFFF
    else if i < -0x8000_0000_0000_0000 then -0x8000_0000_0000_0000
    else i
  }

  lemma {:induction false} DigitsAppend(a: string, rest: string, acc: nat)
    requires forall i :: 0 <= i < |a| ==> IsDigit(a[i])
    ensures Digits(a + rest, acc) == Digits(rest, Digits(a, acc))
    decreases |a|
  {
    if a == "" {
      assert a + rest == rest;
    } else {
      assert (a + rest)[0] == a[0] && (a + rest)[1..] == a[1..] + rest;
      DigitsAppend(a[1..], rest, acc * 10 + (a[0] - '0') as int);
    }
  }

  lemma {:induction false} OneDigit(d: nat, acc: nat)
    requires d < 10
    ensures Digits([Digit(d)], acc) == acc * 10 + d
  {
    assert [Digit(d)][1..] == "";
    assert Digits("", acc * 10 + d) == acc * 10 + d;
  }

  lemma {:induction false} DigitsOfDecimal(n: nat)
    ensures Digits(Decimal(n), 0) == n
  {
    if n < 10 {
      OneDigit(n, 0);
    } else {
      DigitsOfDecimal(n / 10);
      DigitsAppend(Decimal(n / 10), [Digit(n % 10)], 0);
      OneDigit(n % 10, n / 10);
    }
  }

  lemma {:induction false} DigitsRead(n: nat, rest: string)
    requires rest == "" || !IsDigit(rest[0])
    ensures Digits(Decimal(n) + rest, 0) == n
  {
    DigitsAppend(Decimal(n), rest, 0);
    DigitsOfDecimal(n);
  }

  lemma {:induction false} BlanksAreSkipped(blanks: string, text: string)
    requires forall i :: 0 <= i < |blanks| ==> IsSpace(blanks[i])
    requires text != "" && !IsSpace(text[0])
    ensures SkipSpace(blanks + text) == text
  {
    if blanks == "" {
      assert blanks + text == text;
    } else {
      assert (blanks + text)[0] == blanks[0] && (blanks + text)[1..] == blanks[1..] + text;
      BlanksAreSkipped(blanks[1..], text);
    }
  }

  /**
   A numeral reads as its number: behind blanks, with or without a sign, and whatever follows its digits. Beyond 64 bits
   it reads as the nearest number.
   */
  lemma {:induction false} NumeralReads(blanks: string, sign: string, n: nat, rest: string)
    requires forall i :: 0 <= i < |blanks| ==> IsSpace(blanks[i])
    requires sign in ["", "-", "+"] && (rest == "" || !IsDigit(rest[0]))
    ensures Strtol(NumeralText(blanks, sign, n, rest)) == Clamp(Signed(sign, n))
  {
    var digits := Decimal(n) + rest;
    var s := sign + digits;
    DigitsRead(n, rest);
    assert digits[0] == Decimal(n)[0];
    assert s[0] == if sign == "" then digits[0] else sign[0];
    assert sign != "" ==> s[1..] == digits;
    assert sign == "" ==> s == digits;
    BlanksAreSkipped(blanks, s);
  }

  /** In the range of an `int` nothing is lost. */
  lemma {:induction false} AtoiReads(blanks: string, sign: string, n: nat, rest: string)
    requires forall i :: 0 <= i < |blanks| ==> IsSpace(blanks[i])
    requires sign in ["", "-", "+"] && (rest == "" || !IsDigit(rest[0]))
    requires n < 0x8000_0000 || (sign == "-" && n == 0x8000_0000)
    ensures Atoi(NumeralText(blanks, sign, n, rest)) == Signed(sign, n)
  {
    NumeralReads(blanks, sign, n, rest);
    Stays(Signed(sign, n));
  }

  lemma {:induction false} Stays(i: int)
    requires -0x8000_0000 <= i < 0x8000_0000
    ensures ToInt32(i) == i
  {
  }

  /** An unsigned field takes a numeral in its range as it is, up to 32 bits. */
  lemma {:induction false} UnsignedReads(n: nat, values: nat)
    requires values in {0x100, 0x1_0000, 0x1_0000_0000} && n < values
    ensures Atoi(Decimal(n)) % values == n
  {
    assert NumeralText("", "", n, "") == Decimal(n);
    NumeralReads("", "", n, "");
    assert Strtol(Decimal(n)) == n;
    if values == 0x1_0000_0000 {
      WrapsBack(n);
    } else {
      Stays(n);
    }
  }

  lemma {:induction false} WrapsBack(n: nat)
    requires n < 0x1_0000_0000
    ensures ToInt32(n) % 0x1_0000_0000 == n
  {
    assert n % 0x1_0000_0000 == n;
    assert n >= 0x8000_0000 ==> ToInt32(n) == n - 0x1_0000_0000;
  }

  /** The words for true and false in any case, the digits 1 and 0, and the given value for every other text. */
  lemma {:induction false} FlagReads(text: string, otherwise: int)
    ensures ParseBool(text, otherwise)
         == if EqNoCase("TRUE", text) || EqNoCase("YES", text) || text == "1" then 1
            else if EqNoCase("FALSE", text) || EqNoCase("NO", text) || text == "0" then 0
            else otherwise
  {
    SameWord(text, "TRUE", "true");
    SameWord(text, "YES", "yes");
    SameWord(text, "FALSE", "false");
    SameWord(text, "NO", "no");
  }

  lemma {:induction false} SameWord(text: string, a: string, b: string)
    requires EqNoCase(a, b)
    ensures EqNoCase(a, text) <==> EqNoCase(text, b)
  {
  }
}
