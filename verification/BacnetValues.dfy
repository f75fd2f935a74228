/** What a stored value says: the data values read back as application values. */
module BacnetValues {
  import opened Prelude
  import opened BacnetTables

  /** The application value that a data value stands for; a string without data stands for none. */
  function ValueOf(d: DataValue): Option<AppValue> {
    match d
    case DataNull => Some(AppNull)
    case DataBoolean(b) => Some(AppBoolean(b))
    case DataUnsigned(u) => Some(AppUnsigned(u))
    case DataSigned(i) => Some(AppSigned(i))
    case DataReal(bits) => Some(AppReal(bits))
    case DataDouble(bits) => Some(AppDouble(bits))
    case DataEnum(u) => Some(AppEnumerated(u))
    case DataOctetString(octets) => Some(AppOctetString(octets))
    case DataCharacterString(chars) => Some(AppCharacterString(chars))
    case DataDangling => None
  }

  /** The same value in 32 bits: numbers agree modulo 2^32, all else is equal. */
  predicate Agrees(v: AppValue, w: AppValue) {
    match v
    case AppUnsigned(u) => w.AppUnsigned? && w.u < 0x1_0000_0000 && (u - w.u) % 0x1_0000_0000 == 0
    case AppEnumerated(u) => w.AppEnumerated? && w.u < 0x1_0000_0000 && (u - w.u) % 0x1_0000_0000 == 0
    case AppSigned(i) =>
      w.AppSigned? && -0x8000_0000 <= w.i < 0x8000_0000 && (i - w.i) % 0x1_0000_0000 == 0
    case _ => v == w
  }

  predicate In32Bits(v: AppValue) {
    match v
    case AppUnsigned(u) => u < 0x1_0000_0000
    case AppEnumerated(u) => u < 0x1_0000_0000
    case AppSigned(i) => -0x8000_0000 <= i < 0x8000_0000
    case _ => true
  }

  predicate Bit(u: nat, i: nat) {
    u / Pow2(i) % 2 == 1
  }

  /** The bits of an unsigned number are the first eight flags of at most 32, and 0 from there on. */
  ghost predicate HoldsFlags(u: nat, flags: seq<bool>) {
    forall i: nat :: Bit(u, i) <==> |flags| <= 32 && i < 8 && i < |flags| && flags[i]
  }

  /** The data value carries the application value. */
  ghost predicate Carries(d: DataValue, v: AppValue) {
    if v.AppBitString? then d.DataUnsigned? && HoldsFlags(d.u, v.flags)
    else ValueOf(d).Some? && Agrees(v, ValueOf(d).value)
  }

  lemma {:induction false} InRangeAgreesIsEqual(v: AppValue, w: AppValue)
    requires In32Bits(v) && Agrees(v, w)
    ensures v == w
  {
  }

  lemma {:induction false} Pow2Steps(i: nat)
    ensures Pow2(i + 1) == 2 * Pow2(i)
  {
  }

  lemma {:induction false} OneMore(a: nat, p: nat)
    ensures (a + 1) * p == a * p + p
  {
  }

  lemma {:induction false} Multiples(a: nat, b: nat, p: nat)
    requires a < b
    ensures a * p + p <= b * p
  {
    OneMore(b - 1, p);
    if a < b - 1 {
      Multiples(a, b - 1, p);
    }
  }

  lemma {:induction false} DivMul(a: nat, b: nat, p: nat)
    requires p > 0 && b < p
    ensures (a * p + b) / p == a
  {
    var n := a * p + b;
    var q := n / p;
    assert n == q * p + n % p;
    if q < a {
      Multiples(q, a, p);
    } else if a < q {
      Multiples(a, q, p);
    }
  }

  lemma {:induction false} Twice(q: nat, r: nat, p: nat)
    ensures 2 * (q * p + r) == q * (2 * p) + 2 * r
  {
  }

  lemma {:induction false} HalfOf(u: nat, p: nat)
    requires p > 0
    ensures u / (2 * p) == u / 2 / p
  {
    var q, r := u / 2 / p, u / 2 % p;
    var rest := 2 * r + u % 2;
    assert u / 2 == q * p + r;
    assert u == 2 * (u / 2) + u % 2;
    Twice(q, r, p);
    DivMul(q, rest, 2 * p);
  }

  /** Bits of a number: the lowest is its remainder, the others those of its half. */
  lemma {:induction false} BitOfHalf(u: nat, i: nat)
    ensures Bit(u, 0) <==> u % 2 == 1
    ensures Bit(u, i + 1) <==> Bit(u / 2, i)
  {
    HalfOf(u, Pow2(i));
  }

  /** The sum of the flags, from the lowest on. */
  function Value(flags: seq<bool>): nat {
    if flags == [] then 0 else (if flags[0] then 1 else 0) + 2 * Value(flags[1..])
  }

  lemma {:induction false} ValueBits(flags: seq<bool>, i: nat)
    ensures Bit(Value(flags), i) <==> i < |flags| && flags[i]
  {
    if flags == [] {
      NoBits(i);
    } else {
      var v := Value(flags);
      assert v / 2 == Value(flags[1..]) && v % 2 == (if flags[0] then 1 else 0);
      if i == 0 {
        BitOfHalf(v, 0);
      } else {
        BitOfHalf(v, i - 1);
        ValueBits(flags[1..], i - 1);
      }
    }
  }

  lemma {:induction false} NoBits(i: nat)
    ensures !Bit(0, i)
  {
    DivMul(0, 0, Pow2(i));
  }

  lemma {:induction false} ValueSnoc(flags: seq<bool>, b: bool)
    ensures Value(flags + [b]) == Value(flags) + (if b then Pow2(|flags|) else 0)
  {
    if flags != [] {
      assert (flags + [b])[1..] == flags[1..] + [b];
      ValueSnoc(flags[1..], b);
    }
  }

  lemma {:induction false} BitSumIsValue(flags: seq<bool>, n: nat)
    requires n <= |flags|
    ensures BitSum(flags, n) == Value(flags[..n])
  {
    if n > 0 {
      BitSumIsValue(flags, n - 1);
      assert flags[..n] == flags[..n - 1] + [flags[n - 1]];
      ValueSnoc(flags[..n - 1], flags[n - 1]);
    }
  }

  lemma {:induction false} FlagsAreHeld(flags: seq<bool>)
    ensures HoldsFlags(BitFlags(flags), flags)
  {
    var n := if |flags| < 8 then |flags| else 8;
    forall i: nat
      ensures Bit(BitFlags(flags), i) <==> |flags| <= 32 && i < 8 && i < |flags| && flags[i]
    {
      if |flags| <= 32 {
        BitSumIsValue(flags, n);
        ValueBits(flags[..n], i);
      } else {
        NoBits(i);
      }
    }
  }

  /** What is stored carries the value of the ACK, for every value but those of other types, which are refused. */
  lemma {:induction false} StoredValueCarries(v: AppValue)
    ensures DataOf(v).Some? <==> !v.AppOther?
    ensures DataOf(v).Some? ==> Carries(DataOf(v).value, v)
  {
    match v
    case AppBitString(flags) => FlagsAreHeld(flags);
    case AppUnsigned(u) => Wraps(u);
    case AppEnumerated(u) => Wraps(u);
    case AppSigned(i) => WrapsSigned(i);
    case _ =>
  }

  lemma {:induction false} Wraps(u: nat)
    ensures u % TWO_32 < 0x1_0000_0000 && (u - u % TWO_32) % 0x1_0000_0000 == 0
  {
  }

  lemma {:induction false} WrapsSigned(i: int)
    ensures -0x8000_0000 <= ToInt32(i) < 0x8000_0000 && (i - ToInt32(i)) % 0x1_0000_0000 == 0
  {
    assert (i - ToInt32(i)) == -(ToInt32(i) - i);
  }

  /** A value in range, other than a bit string, reads back as it is. */
  lemma {:induction false} ValueReadsBack(v: AppValue)
    requires In32Bits(v) && !v.AppBitString? && !v.AppOther?
    ensures DataOf(v).Some? && ValueOf(DataOf(v).value) == Some(v)
  {
    StoredValueCarries(v);
    InRangeAgreesIsEqual(v, ValueOf(DataOf(v).value).value);
  }
}
