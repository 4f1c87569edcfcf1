/** BITFIELD: integers of 1 to 64 bits at any bit offset of a string, with three ways to treat overflow. */
module BitField {
  import opened BitString
  import opened MachineWord

  const TWO63: int := 0x8000_0000_0000_0000
  const TWO64: int := 0x1_0000_0000_0000_0000

  // ---------------------------------------------------------------- reading

  /** The n bits from `offset` on as a number; the string is followed by zeros. */
  function ReadU(s: seq<Byte>, offset: nat, n: nat): (r: nat)
    ensures r < Pow2(n)
  {
    if n == 0 then 0 else 2 * ReadU(s, offset, n - 1) + Flag(PaddedBit(s, offset + n - 1))
  }

  /** Two's complement of width `bits`. */
  function AsSigned(u: nat, bits: nat): int
    requires bits > 0
  {
    if u >= Pow2(bits - 1) then u - Pow2(bits) else u
  }

  function ReadS(s: seq<Byte>, offset: nat, bits: nat): int
    requires bits > 0
  {
    AsSigned(ReadU(s, offset, bits), bits)
  }

  method GetUnsigned(p: array<Byte>, offset: nat, bits: nat) returns (value: nat)
    requires bits <= 64 && offset + bits <= 8 * p.Length
    ensures value == ReadU(p[..], offset, bits)
  {
    hide BitOf;
    value := 0;
    for j := 0 to bits
      invariant value == ReadU(p[..], offset, j)
    {
      var at := offset + j;
      var bitval := if BitOf(p[at / 8], at % 8) then 1 else 0;
      assert PaddedBit(p[..], at) == BitOf(p[at / 8], at % 8);
      value := 2 * value + bitval;
    }
  }

  /** The top bit of the field is copied to all higher bits of the machine word. */
  method GetSigned(p: array<Byte>, offset: nat, bits: nat) returns (value: int)
    requires 0 < bits <= 64 && offset + bits <= 8 * p.Length
    ensures value == ReadS(p[..], offset, bits)
  {
    hide ReadU, ToWord, Value;
    var u := GetUnsigned(p, offset, bits);
    var word := ToWord(u, 64);
    SignCopied(u, bits);
    if bits < 64 && Value(AndW(word, ShiftLeft(ToWord(1, 64), bits - 1))) != 0 {
      word := OrW(word, HighMask(64, bits));
    }
    value := SignedValue(word);
  }

  /** A machine word as a signed number. */
  function SignedValue(w: Word): int
    requires |w| == 64
  {
    if w[63] then Value(w) - TWO64 else Value(w)
  }

  /** The most significant bit comes first: a field of one byte is the byte, one of two bytes is
      big-endian. */
  lemma ReadsBytes(s: seq<Byte>, k: nat)
    requires k < |s|
    ensures ReadU(s, 8 * k, 8) == s[k] as nat
    ensures k + 1 < |s| ==> ReadU(s, 8 * k, 16) == 256 * (s[k] as nat) + s[k + 1] as nat
  {
    hide BitOf, ReadU;
    NothingRead(s, 8 * k);
    OneByteMore(s, 8 * k, 0, k);
    ByteIs(s[k]);
    if k + 1 < |s| {
      OneByteMore(s, 8 * k, 8, k + 1);
      ByteIs(s[k + 1]);
    }
  }

  lemma NothingRead(s: seq<Byte>, offset: nat)
    ensures ReadU(s, offset, 0) == 0
  {}

  function FromBits(b: Byte): nat {
    128 * Flag(BitOf(b, 0)) + 64 * Flag(BitOf(b, 1)) + 32 * Flag(BitOf(b, 2)) + 16 * Flag(BitOf(b, 3))
    + 8 * Flag(BitOf(b, 4)) + 4 * Flag(BitOf(b, 5)) + 2 * Flag(BitOf(b, 6)) + Flag(BitOf(b, 7))
  }

  lemma ByteIs(b: Byte)
    ensures b as nat == FromBits(b)
  {}

  lemma OneByteMore(s: seq<Byte>, offset: nat, n: nat, k: nat)
    requires k < |s| && offset + n == 8 * k
    ensures ReadU(s, offset, n + 8) == 256 * ReadU(s, offset, n) + FromBits(s[k])
  {
    hide BitOf, ReadU;
    ReadNext(s, offset, n, k, 0);
    ReadNext(s, offset, n, k, 1);
    ReadNext(s, offset, n, k, 2);
    ReadNext(s, offset, n, k, 3);
    ReadNext(s, offset, n, k, 4);
    ReadNext(s, offset, n, k, 5);
    ReadNext(s, offset, n, k, 6);
    ReadNext(s, offset, n, k, 7);
  }

  lemma ReadNext(s: seq<Byte>, offset: nat, n: nat, k: nat, i: nat)
    requires k < |s| && offset + n == 8 * k && i < 8
    ensures ReadU(s, offset, n + i + 1) == 2 * ReadU(s, offset, n + i) + Flag(BitOf(s[k], i))
  {
    hide BitOf;
    BitAt(s, k, i);
  }

  // ---------------------------------------------------------------- writing

  /** Bit k of a number, counted from the least significant one. */
  predicate ValueBit(v: nat, k: nat) { if k == 0 then v % 2 == 1 else ValueBit(v / 2, k - 1) }

  /** Only the n bits from `offset` on may differ. */
  ghost predicate OthersSame(s: seq<Byte>, t: seq<Byte>, offset: nat, n: nat) {
    |s| == |t| && forall q :: 0 <= q < 8 * |s| && !(offset <= q < offset + n) ==> GetBit(s, q) == GetBit(t, q)
  }

  function PutBit(b: Byte, i: nat, v: bool): Byte
    requires i < 8
  {
    (b & !BitMask(i)) | (if v then BitMask(i) else 0)
  }

  lemma RawPut(b: Byte, m: Byte, w: Byte)
    requires IsOneHot(m) && IsOneHot(w)
    ensures ((b & !m) | m) & w != 0 <==> (w == m || b & w != 0)
    ensures ((b & !m) | 0) & w != 0 <==> (w != m && b & w != 0)
  {}

  lemma MasksDiffer(i: nat, j: nat)
    requires i < 8 && j < 8
    ensures BitMask(i) == BitMask(j) <==> i == j
  {}

  lemma PutBitBits(b: Byte, i: nat, v: bool, j: nat)
    requires i < 8 && j < 8
    ensures BitOf(PutBit(b, i, v), j) == if i == j then v else BitOf(b, j)
  {
    hide BitMask, IsOneHot;
    MaskIsOneHot(i);
    MaskIsOneHot(j);
    MasksDiffer(i, j);
    RawPut(b, BitMask(i), BitMask(j));
  }

  lemma PutIn(s: seq<Byte>, at: nat, v: bool, q: nat)
    requires at < 8 * |s| && q < 8 * |s|
    ensures GetBit(s[at / 8 := PutBit(s[at / 8], at % 8, v)], q) == if q == at then v else GetBit(s, q)
  {
    hide PutBit, BitOf;
    if q / 8 == at / 8 { PutBitBits(s[at / 8], at % 8, v, q % 8); }
  }

  method SetUnsigned(p: array<Byte>, offset: nat, bits: nat, value: nat)
    requires bits <= 64 && offset + bits <= 8 * p.Length
    modifies p
    ensures ReadU(p[..], offset, bits) == value % Pow2(bits)
    ensures OthersSame(old(p[..]), p[..], offset, bits)
  {
    hide PutBit, GetBit, ReadU;
    for j := 0 to bits
      invariant OthersSame(old(p[..]), p[..], offset, j)
      invariant Holds(p[..], offset, bits, j, value)
    {
      ghost var s := p[..];
      var at := offset + j;
      var bitval := ValueBit(value, bits - 1 - j);
      p[at / 8] := PutBit(p[at / 8], at % 8, bitval);
      assert p[..] == s[at / 8 := PutBit(s[at / 8], at % 8, bitval)];
      PutStep(old(p[..]), s, p[..], offset, bits, j, value);
    }
    ReadOfBits(p[..], offset, bits, value);
  }

  /** The first j bits of the field are those of the value. */
  ghost predicate Holds(s: seq<Byte>, offset: nat, bits: nat, j: nat, value: nat) {
    j <= bits && offset + bits <= 8 * |s| && forall k :: 0 <= k < j ==>
        FieldBit(s, offset, k) == ValueBit(value, bits - 1 - k)
  }

  predicate FieldBit(s: seq<Byte>, offset: nat, k: nat)
    requires offset + k < 8 * |s|
  {
    GetBit(s, offset + k)
  }

  lemma PutStep(s0: seq<Byte>, s: seq<Byte>, t: seq<Byte>, offset: nat, bits: nat, j: nat, value: nat)
    requires j < bits && OthersSame(s0, s, offset, j) && Holds(s, offset, bits, j, value)
    requires var at := offset + j; t == s[at / 8 := PutBit(s[at / 8], at % 8, ValueBit(value, bits - 1 - j))]
    ensures OthersSame(s0, t, offset, j + 1) && Holds(t, offset, bits, j + 1, value)
  {
    hide PutBit, GetBit, ValueBit;
    var at, v := offset + j, ValueBit(value, bits - 1 - j);
    forall q | 0 <= q < 8 * |s| ensures GetBit(t, q) == if q == at then v else GetBit(s, q) {
      PutIn(s, at, v, q);
    }
    forall k | 0 <= k < j + 1 ensures FieldBit(t, offset, k) == ValueBit(value, bits - 1 - k) {
      assert FieldBit(t, offset, k) == GetBit(t, offset + k);
      assert k < j ==> FieldBit(s, offset, k) == GetBit(s, offset + k);
    }
  }

  lemma Quotient(v: nat, d: nat, q: nat, r: nat)
    requires d > 0 && v == d * q + r && r < d
    ensures v / d == q && v % d == r
  {
    SameQuotient(d, v / d, v % d, q, r);
  }

  lemma SameQuotient(d: nat, a: nat, x: nat, b: nat, y: nat)
    requires x < d && y < d && d * a + x == d * b + y
    ensures a == b && x == y
  {
    Apart(d, a, b);
    Apart(d, b, a);
  }

  lemma {:induction false} Apart(d: nat, a: nat, b: nat)
    ensures a > b ==> d * a >= d * b + d
    decreases a
  {
    if a > b {
      assert d * a == d * (a - 1) + d;
      Apart(d, a - 1, b);
    }
  }

  /** Bits in the order of significance are the value modulo the width. */
  lemma {:induction false} ReadOfBits(s: seq<Byte>, offset: nat, n: nat, v: nat)
    requires Holds(s, offset, n, n, v)
    ensures ReadU(s, offset, n) == v % Pow2(n)
    decreases n
  {
    hide GetBit;
    if n > 0 {
      forall k | 0 <= k < n - 1 ensures FieldBit(s, offset, k) == ValueBit(v / 2, n - 1 - 1 - k) {
        assert ValueBit(v, n - 1 - k) == ValueBit(v / 2, n - 1 - 1 - k);
      }
      ReadOfBits(s, offset, n - 1, v / 2);
      assert FieldBit(s, offset, n - 1) == ValueBit(v, 0);
      ModHalf(v, Pow2(n - 1));
    }
  }

  lemma ModHalf(v: nat, p: nat)
    requires p > 0
    ensures v % (2 * p) == 2 * (v / 2 % p) + v % 2
  {
    var q := v / 2 / p;
    assert v / 2 == p * q + v / 2 % p;
    assert v == (2 * p) * q + (2 * (v / 2 % p) + v % 2);
    Quotient(v, 2 * p, q, 2 * (v / 2 % p) + v % 2);
  }

  // ---------------------------------------------------------------- 64-bit arithmetic

  predicate Int64(x: int) { -TWO63 <= x < TWO63 }

  function ToU64(x: int): nat { x % TWO64 }

  function ToS64(x: int): int {
    var u := x % TWO64;
    if u >= TWO63 then u - TWO64 else u
  }

  lemma S64Same(x: int)
    ensures Int64(x) ==> ToS64(x) == x
    ensures TWO63 <= x < TWO64 ==> ToS64(x) == x - TWO64
  {}

  lemma U64Same(x: int)
    ensures 0 <= x < TWO64 ==> ToU64(x) == x
    ensures 0 - TWO64 <= x < 0 ==> ToU64(x) == x + TWO64
  {}

  lemma Doubled(n: nat)
    requires n > 0
    ensures Pow2(n) == 2 * Pow2(n - 1)
  {}

  lemma Pow2Values()
    ensures Pow2(63) == TWO63 && Pow2(64) == TWO64
  {
    assert Pow2(2) == 4 && Pow2(4) == 16;
    Doubled(64);
    hide Pow2;
    Pow2Add(4, 4);
    Pow2Add(8, 8);
    Pow2Add(16, 16);
    Pow2Add(32, 32);
  }

  /** A width of at most 64 bits divides the machine word. */
  lemma Pow2Divides(bits: nat) returns (q: nat)
    requires bits <= 64
    ensures q > 0 && TWO64 == Pow2(bits) * q && Pow2(bits) <= TWO64
  {
    q := Pow2(64 - bits);
    Pow2Add(bits, 64 - bits);
    Pow2Values();
    Apart(Pow2(bits), q, 0);
  }

  lemma Pow2Half(bits: nat)
    requires 0 < bits <= 63
    ensures Pow2(bits) <= TWO63 && Pow2(bits) == 2 * Pow2(bits - 1)
  {
    Pow2Values();
    Pow2Add(bits, 63 - bits);
    Apart(Pow2(bits), Pow2(63 - bits), 0);
  }

  /** Reducing modulo the machine word first makes no difference. */
  lemma ModWord(x: int, bits: nat)
    requires bits <= 64
    ensures ToU64(x) % Pow2(bits) == x % Pow2(bits)
  {
    var q := Pow2Divides(bits);
    ModMultiple(ToU64(x), Pow2(bits), q * (x / TWO64));
    WordSplit(x, Pow2(bits), q);
  }

  lemma WordSplit(x: int, p: nat, q: nat)
    requires p > 0 && TWO64 == p * q
    ensures x == ToU64(x) + p * (q * (x / TWO64))
  {
    assert x == TWO64 * (x / TWO64) + x % TWO64;
    MulAssoc(p, q, x / TWO64);
  }

  lemma MulAssoc(a: int, b: int, c: int)
    ensures (a * b) * c == a * (b * c)
  {}

  lemma ModMultiple(r: int, p: nat, k: int)
    requires p > 0
    ensures (r + p * k) % p == r % p
  {
    var x := r + p * k;
    assert x == p * (r / p + k) + r % p by { assert r == p * (r / p) + r % p; Distribute(p, r / p, k); }
    IntQuotient(p, x / p, x % p, r / p + k, r % p);
  }

  lemma Distribute(p: int, a: int, b: int)
    ensures p * (a + b) == p * a + p * b
  {}

  lemma IntQuotient(d: nat, a: int, x: nat, b: int, y: nat)
    requires x < d && y < d && d * a + x == d * b + y
    ensures x == y
  {
    if a >= b {
      Distribute(d, a - b, b);
      SameQuotient(d, a - b, x, 0, y);
    } else {
      Distribute(d, b - a, a);
      SameQuotient(d, b - a, y, 0, x);
    }
  }

  // ---------------------------------------------------------------- masks

  /** The low bits of a word are its value modulo the width. */
  lemma LowValue(w: Word, bits: nat)
    requires bits <= |w|
    ensures Value(w[..bits]) == Value(w) % Pow2(bits)
  {
    hide Value, Pow2;
    assert w[..bits] + w[bits..] == w;
    ValueConcat(w[..bits], w[bits..]);
    ValueBound(w[..bits]);
    Quotient(Value(w), Pow2(bits), Value(w[bits..]), Value(w[..bits]));
  }

  /** The sum as an unsigned machine word, its high bits cleared. */
  function WrapUnsigned(x: int, bits: nat): int {
    Value(AndW(ToWord(ToU64(x), 64), NotW(HighMask(64, bits))))
  }

  /** The sum as a machine word with its sign bit copied to all higher bits. */
  function WrapSigned(x: int, bits: nat): int
    requires bits > 0
  {
    var c := ToWord(ToU64(x), 64);
    if bits >= 64 then SignedValue(c)
    else if Value(AndW(c, ShiftLeft(ToWord(1, 64), bits - 1))) != 0 then SignedValue(OrW(c, HighMask(64, bits)))
    else SignedValue(AndW(c, NotW(HighMask(64, bits))))
  }

  lemma WordValue(x: int)
    ensures Value(ToWord(ToU64(x), 64)) == ToU64(x)
  {
    Pow2Values();
    hide Pow2;
    ValueOfWord(ToU64(x), 64);
  }

  /** The mask computes the sum modulo the width. */
  lemma WrapUnsignedIs(x: int, bits: nat)
    requires bits <= 64
    ensures WrapUnsigned(x, bits) == x % Pow2(bits)
  {
    hide Pow2, ToU64, ToWord, Value, AndW, NotW, HighMask;
    var c := ToWord(ToU64(x), 64);
    ClearHigh(c, bits);
    LowValue(c, bits);
    WordValue(x);
    ModWord(x, bits);
  }

  /** A word whose bits from the sign bit of the field on are all alike. */
  lemma SignedField(w: Word, bits: nat, u: nat, negative: bool)
    requires |w| == 64 && 0 < bits <= 64 && u < Pow2(bits) && (negative <==> u >= Pow2(bits - 1))
    requires Value(w) == if negative then u + TWO64 - Pow2(bits) else u
    ensures SignedValue(w) == AsSigned(u, bits)
  {
    Pow2Values();
    SignedBounds(bits);
    hide Pow2, Value;
    TopBit(w);
  }

  /** Both masks together compute the two's complement of the field. */
  lemma WrapSignedIs(x: int, bits: nat)
    requires 0 < bits <= 64
    ensures WrapSigned(x, bits) == AsSigned(x % Pow2(bits), bits)
  {
    Pow2Values();
    hide Pow2, ToU64, ToWord, Value, AndW, OrW, NotW, HighMask, ShiftLeft, AsSigned, SignedValue;
    var c := ToWord(ToU64(x), 64);
    WordValue(x);
    ModWord(x, bits);
    FieldSign(c, bits);
    var u := Value(c) % Pow2(bits);
    LowValue(c, bits);
    ValueBound(c[..bits]);
    var negative := u >= Pow2(bits - 1);
    if bits == 64 {
      assert c[..64] == c;
      SignedField(c, bits, u, negative);
    } else if negative {
      SetHigh(c, bits);
      SignedField(OrW(c, HighMask(64, bits)), bits, u, negative);
    } else {
      ClearHigh(c, bits);
      SignedField(AndW(c, NotW(HighMask(64, bits))), bits, u, negative);
    }
  }

  /** Testing the sign bit of the field. */
  lemma FieldSign(c: Word, bits: nat)
    requires |c| == 64 && 0 < bits <= 64
    ensures Value(AndW(c, ShiftLeft(ToWord(1, 64), bits - 1))) != 0 <==> Value(c) % Pow2(bits) >= Pow2(bits - 1)
  {
    hide Pow2, ToWord, Value, AndW, ShiftLeft;
    SingleBit(c, bits - 1);
    LowValue(c, bits);
    TopBit(c[..bits]);
  }

  /** What reading a signed field does to the bits it has collected. */
  lemma SignCopied(u: nat, bits: nat)
    requires 0 < bits <= 64 && u < Pow2(bits)
    ensures var w := ToWord(u, 64);
      SignedValue(if bits < 64 && Value(AndW(w, ShiftLeft(ToWord(1, 64), bits - 1))) != 0
          then OrW(w, HighMask(64, bits)) else w)
      == AsSigned(u, bits)
  {
    Pow2Values();
    var _ := Pow2Divides(bits);
    hide Pow2, ToWord, Value, AndW, OrW, HighMask, ShiftLeft, AsSigned, SignedValue;
    var w := ToWord(u, 64);
    ValueOfWord(u, 64);
    Quotient(u, Pow2(bits), 0, u);
    FieldSign(w, bits);
    LowValue(w, bits);
    var negative := u >= Pow2(bits - 1);
    if bits < 64 && negative {
      SetHigh(w, bits);
      SignedField(OrW(w, HighMask(64, bits)), bits, u, negative);
    } else {
      SignedField(w, bits, u, negative);
    }
  }

  // ---------------------------------------------------------------- overflow

  datatype Policy = Wrap | Sat | Fail

  /** The outcome of a check; with policy Fail the limit is not set. */
  datatype Check = Fits | Over(limit: int) | Under(limit: int)

  function CheckUnsigned(value: int, incr: int, bits: nat, policy: Policy): Check {
    var max := Pow2(bits) - 1;
    var maxincr, minincr := ToS64(max - value), ToS64(0 - value);
    var wrapped := WrapUnsigned(value + incr, bits);
    if value > max || (incr > 0 && incr > maxincr) then
      (match policy case Wrap => Over(wrapped) case Sat => Over(max) case Fail => Over(0))
    else if incr < 0 && incr < minincr then
      (match policy case Wrap => Over(wrapped) case Sat => Under(0) case Fail => Under(0))
    else Fits
  }

  function CheckSigned(value: int, incr: int, bits: nat, policy: Policy): Check
    requires bits > 0
  {
    var max := Pow2(bits - 1) - 1;
    var min := 0 - max - 1;
    var maxincr, minincr := ToS64(max - value), ToS64(min - value);
    var wrapped := WrapSigned(value + incr, bits);
    if value > max || (bits != 64 && incr > maxincr) || (value >= 0 && incr > 0 && incr > maxincr) then
      (match policy case Wrap => Over(wrapped) case Sat => Over(max) case Fail => Over(0))
    else if value < min || (bits != 64 && incr < minincr) || (value < 0 && incr < 0 && incr < minincr) then
      (match policy case Wrap => Over(wrapped) case Sat => Under(min) case Fail => Under(0))
    else Fits
  }

  function Clamp(x: int, lo: int, hi: int): int { if x < lo then lo else if x > hi then hi else x }

  /** Incrementing a stored unsigned field: the check fails exactly if the sum does not fit. */
  lemma UnsignedExact(value: nat, incr: int, bits: nat, policy: Policy)
    requires 0 < bits <= 63 && value < Pow2(bits) && Int64(incr)
    ensures var c := CheckUnsigned(value, incr, bits, policy);
      && (c.Fits? <==> 0 <= value + incr < Pow2(bits))
      && (!c.Fits? && policy == Wrap ==> c.limit == (value + incr) % Pow2(bits))
      && (!c.Fits? && policy == Sat ==> c.limit == Clamp(value + incr, 0, Pow2(bits) - 1))
  {
    hide Pow2, ToS64, ToU64, WrapUnsigned;
    Pow2Half(bits);
    S64Same(Pow2(bits) - 1 - value);
    S64Same(0 - value);
    WrapUnsignedIs(value + incr, bits);
  }

  /** Setting an unsigned field to any 64-bit number: a negative one is taken modulo the machine
      word first, so that saturation gives the nearest value exactly for numbers that are not negative. */
  lemma UnsignedSet(v: int, bits: nat, policy: Policy)
    requires 0 < bits <= 63 && Int64(v)
    ensures var c := CheckUnsigned(ToU64(v), 0, bits, policy);
      && (c.Fits? <==> 0 <= v < Pow2(bits))
      && (c.Fits? ==> ToU64(v) == v)
      && (!c.Fits? && policy == Wrap ==> c.limit == v % Pow2(bits))
      && (!c.Fits? && policy == Sat ==> (c.limit == Clamp(v, 0, Pow2(bits) - 1) <==> v >= 0))
  {
    hide Pow2, ToS64, ToU64, WrapUnsigned;
    Pow2Half(bits);
    U64Same(v);
    U64Same(ToU64(v) + 0);
    WideMax(bits);
    ModWord(v, bits);
    WrapUnsignedIs(ToU64(v), bits);
  }

  lemma WideMax(bits: nat)
    requires bits > 0
    ensures Pow2(bits) >= 2
  {}

  ghost predicate InRange(v: int, bits: nat)
    requires bits > 0
  {
    0 - Pow2(bits - 1) <= v < Pow2(bits - 1)
  }

  lemma SignedBounds(bits: nat)
    requires 0 < bits <= 64
    ensures Pow2(bits) == 2 * Pow2(bits - 1) && Pow2(bits - 1) <= TWO63 && (bits < 64 ==> 2 * Pow2(bits - 1) <= TWO63)
    ensures bits == 64 ==> Pow2(bits - 1) == TWO63
  {
    Pow2Values();
    if bits < 64 { Pow2Half(bits); }
  }

  /** Incrementing a stored signed field, for all widths. */
  lemma SignedExact(value: int, incr: int, bits: nat, policy: Policy)
    requires 0 < bits <= 64 && InRange(value, bits) && Int64(incr)
    ensures var c := CheckSigned(value, incr, bits, policy);
      && (c.Fits? <==> InRange(value + incr, bits))
      && (!c.Fits? && policy == Wrap ==> c.limit == AsSigned((value + incr) % Pow2(bits), bits))
      && (!c.Fits? && policy == Sat ==> c.limit == Clamp(value + incr, 0 - Pow2(bits - 1), Pow2(bits - 1) - 1))
  {
    hide Pow2, ToS64, ToU64, AsSigned, WrapSigned;
    SignedBounds(bits);
    S64Same(Pow2(bits - 1) - 1 - value);
    S64Same(0 - Pow2(bits - 1) - value);
    WrapSignedIs(value + incr, bits);
  }

  /** Setting a signed field to any 64-bit number. The distance to the maximum is computed in 64
      bits: where it does not fit, saturation gives the maximum instead of the minimum. */
  lemma SignedSet(v: int, bits: nat, policy: Policy)
    requires 0 < bits <= 64 && Int64(v)
    ensures var c := CheckSigned(v, 0, bits, policy);
      && (c.Fits? <==> InRange(v, bits))
      && (!c.Fits? && policy == Wrap ==> c.limit == AsSigned(v % Pow2(bits), bits))
      && (!c.Fits? && policy == Sat ==>
            (c.limit == Clamp(v, 0 - Pow2(bits - 1), Pow2(bits - 1) - 1) <==> Pow2(bits - 1) - 1 - v < TWO63))
  {
    hide Pow2, ToS64, ToU64, AsSigned, WrapSigned;
    SignedBounds(bits);
    S64Same(Pow2(bits - 1) - 1 - v);
    S64Same(0 - Pow2(bits - 1) - v);
    WrapSignedIs(v, bits);
  }

  /** The smallest 64-bit number, stored in 8 bits with saturation, becomes the largest 8-bit number. */
  lemma SaturatesUpwards()
    ensures CheckSigned(-TWO63, 0, 8, Sat) == Over(127)
  {
    assert Pow2(3) == 8;
    assert Pow2(7) == 128;
  }

  // ---------------------------------------------------------------- the operations

  datatype Op = Set(value: int) | IncrBy(amount: int)

  /** What is stored, unless the operation overflows under policy Fail. */
  function Stored(op: Op, was: int, bits: nat, sign: bool, policy: Policy): int
    requires bits > 0
  {
    var c := Checked(op, was, bits, sign, policy);
    Outcome(c, match op case Set(v) => v case IncrBy(n) => was + n)
  }

  function Checked(op: Op, was: int, bits: nat, sign: bool, policy: Policy): Check
    requires bits > 0
  {
    match op
    case Set(v) => if sign then CheckSigned(v, 0, bits, policy) else CheckUnsigned(ToU64(v), 0, bits, policy)
    case IncrBy(n) => if sign then CheckSigned(was, n, bits, policy) else CheckUnsigned(was, n, bits, policy)
  }

  predicate WidthOk(bits: nat, sign: bool) { 0 < bits <= if sign then 64 else 63 }

  function Read(s: seq<Byte>, offset: nat, bits: nat, sign: bool): int
    requires bits > 0
  {
    if sign then ReadS(s, offset, bits) else ReadU(s, offset, bits)
  }

  /** The number the operation asks for. */
  function Wanted(op: Op, was: int): int { if op.Set? then op.value else was + op.amount }

  ghost function Least(bits: nat, sign: bool): int
    requires bits > 0
  {
    if sign then 0 - Pow2(bits - 1) else 0
  }

  ghost function Greatest(bits: nat, sign: bool): int
    requires bits > 0
  {
    if sign then Pow2(bits - 1) - 1 else Pow2(bits) - 1
  }

  /** SET computes the distance of a very negative number to the greatest one wrongly. */
  ghost predicate Misjudged(op: Op, bits: nat, sign: bool)
    requires bits > 0
  {
    op.Set? && if sign then Greatest(bits, sign) - op.value >= TWO63 else op.value < 0
  }

  /** What the field holds after an operation that did not fail: the number itself if it fits, else
      the number modulo the width, or the nearest one that fits. */
  ghost predicate Right(op: Op, was: int, now: int, bits: nat, sign: bool, policy: Policy)
    requires bits > 0
  {
    var want := Wanted(op, was);
    && Fitting(now, bits, sign)
    && (Fitting(want, bits, sign) ==> now == want)
    && (policy == Wrap ==> (now - want) % Pow2(bits) == 0)
    && (policy == Sat && !Fitting(want, bits, sign) && !Misjudged(op, bits, sign) ==>
          now == if want < Least(bits, sign) then Least(bits, sign) else Greatest(bits, sign))
    && (policy == Sat && !Fitting(want, bits, sign) && Misjudged(op, bits, sign) ==> now == Greatest(bits, sign))
  }

  /** SET and INCRBY on a string that reaches beyond the field. The reply is the old value for SET
      and the new one for INCRBY; a failed operation replies nothing and leaves the bytes alone. */
  method Execute(p: array<Byte>, offset: nat, bits: nat, sign: bool, policy: Policy, op: Op)
      returns (reply: int, failed: bool)
    requires WidthOk(bits, sign) && offset + bits <= 8 * p.Length
    requires match op case Set(v) => Int64(v) case IncrBy(n) => Int64(n)
    modifies p
    ensures var was, now := Read(old(p[..]), offset, bits, sign), Read(p[..], offset, bits, sign);
      && (failed <==> policy == Fail && !Fitting(Wanted(op, was), bits, sign))
      && (failed ==> p[..] == old(p[..]))
      && (!failed ==> Right(op, was, now, bits, sign, policy) && reply == if op.Set? then was else now)
      && OthersSame(old(p[..]), p[..], offset, bits)
  {
    hide Pow2, CheckSigned, CheckUnsigned, ReadU, ToU64;
    var oldval: int;
    if sign { oldval := GetSigned(p, offset, bits); } else { oldval := GetUnsigned(p, offset, bits); }
    var check := Checked(op, oldval, bits, sign, policy);
    var newval := Stored(op, oldval, bits, sign, policy);
    failed := !check.Fits? && policy == Fail;
    reply := 0;
    StoredRight(p[..], offset, op, bits, sign, policy);
    if failed { return; }
    reply := if op.Set? then oldval else newval;
    SetUnsigned(p, offset, bits, ToU64(newval));
    ReadBack(p[..], offset, bits, sign, newval);
  }

  /** What is stored is in the range of the field. */
  ghost predicate Fitting(v: int, bits: nat, sign: bool)
    requires bits > 0
  {
    if sign then InRange(v, bits) else 0 <= v < Pow2(bits)
  }

  lemma {:induction false} ReadFits(s: seq<Byte>, offset: nat, bits: nat, sign: bool)
    requires WidthOk(bits, sign)
    ensures Fitting(Read(s, offset, bits, sign), bits, sign)
  {
    SignedBounds(bits);
  }

  lemma SignedFits(u: nat, bits: nat)
    requires 0 < bits <= 64 && u < Pow2(bits)
    ensures InRange(AsSigned(u, bits), bits)
  {
    SignedBounds(bits);
  }

  /** The checks decide exactly, and what is stored is right. */
  lemma StoredRight(s: seq<Byte>, offset: nat, op: Op, bits: nat, sign: bool, policy: Policy)
    requires WidthOk(bits, sign)
    requires match op case Set(v) => Int64(v) case IncrBy(n) => Int64(n)
    ensures var was := Read(s, offset, bits, sign);
      && (Checked(op, was, bits, sign, policy).Fits? <==> Fitting(Wanted(op, was), bits, sign))
      && (!(policy == Fail && !Fitting(Wanted(op, was), bits, sign)) ==>
            Right(op, was, Stored(op, was, bits, sign, policy), bits, sign, policy))
  {
    hide CheckSigned, CheckUnsigned, Read, Pow2, Fitting, Right, ToU64;
    var was := Read(s, offset, bits, sign);
    ReadFits(s, offset, bits, sign);
    match op
    case Set(v) =>
      if sign { SetRightSigned(v, was, bits, policy); } else { SetRightUnsigned(v, was, bits, policy); }
    case IncrBy(n) =>
      if sign { IncrRightSigned(n, was, bits, policy); } else { IncrRightUnsigned(n, was, bits, policy); }
  }

  /** The value of a check is right: it fits exactly if the number does, and the outcome is the one the
      policy asks for. */
  ghost predicate CheckRight(c: Check, op: Op, was: int, bits: nat, sign: bool, policy: Policy)
    requires bits > 0
  {
    && (c.Fits? <==> Fitting(Wanted(op, was), bits, sign))
    && (policy != Fail || c.Fits? ==> Right(op, was, Outcome(c, Wanted(op, was)), bits, sign, policy))
  }

  lemma SetRightSigned(v: int, was: int, bits: nat, policy: Policy)
    requires 0 < bits <= 64 && Int64(v)
    ensures CheckRight(CheckSigned(v, 0, bits, policy), Set(v), was, bits, true, policy)
  {
    SignedSet(v, bits, policy);
    LimitSigned(v, bits, policy);
    SignedBounds(bits);
    WrapsAlike(v, bits);
    hide CheckSigned, Pow2, AsSigned;
    SignedFits(v % Pow2(bits), bits);
  }

  lemma SetRightUnsigned(v: int, was: int, bits: nat, policy: Policy)
    requires 0 < bits <= 63 && Int64(v)
    ensures CheckRight(CheckUnsigned(ToU64(v), 0, bits, policy), Set(v), was, bits, false, policy)
  {
    UnsignedSet(v, bits, policy);
    LimitUnsigned(v, bits, policy);
    SignedBounds(bits);
    WrapsAlike(v, bits);
    hide CheckUnsigned, Pow2, AsSigned, ToU64;
  }

  lemma IncrRightSigned(n: int, was: int, bits: nat, policy: Policy)
    requires 0 < bits <= 64 && Int64(n) && Fitting(was, bits, true)
    ensures CheckRight(CheckSigned(was, n, bits, policy), IncrBy(n), was, bits, true, policy)
  {
    SignedExact(was, n, bits, policy);
    SignedBounds(bits);
    WrapsAlike(was + n, bits);
    hide CheckSigned, Pow2, AsSigned;
    SignedFits((was + n) % Pow2(bits), bits);
  }

  lemma IncrRightUnsigned(n: int, was: int, bits: nat, policy: Policy)
    requires 0 < bits <= 63 && Int64(n) && Fitting(was, bits, false)
    ensures CheckRight(CheckUnsigned(was, n, bits, policy), IncrBy(n), was, bits, false, policy)
  {
    UnsignedExact(was, n, bits, policy);
    SignedBounds(bits);
    WrapsAlike(was + n, bits);
    hide CheckUnsigned, Pow2, AsSigned;
  }

  /** A number and its value modulo the width differ by a multiple of the width. */
  lemma WrapsAlike(x: int, bits: nat)
    requires 0 < bits <= 64
    ensures (x - x) % Pow2(bits) == 0 && (x % Pow2(bits) - x) % Pow2(bits) == 0
    ensures (AsSigned(x % Pow2(bits), bits) - x) % Pow2(bits) == 0
  {
    hide Pow2;
    var p := Pow2(bits);
    var k := x / p;
    assert x == p * k + x % p;
    ModMultiple(0, p, 0);
    ModMultiple(0, p, 0 - k);
    ModMultiple(0, p, 0 - k - 1);
    Distribute(p, 0 - k, -1);
    Distribute(p, k, 0 - k);
    Quotient(0, p, 0, 0);
  }

  function Outcome(c: Check, plain: int): int { if c.Fits? then plain else c.limit }

  lemma LimitSigned(v: int, bits: nat, policy: Policy)
    requires bits > 0
    ensures var c := CheckSigned(v, 0, bits, policy);
      policy == Sat && !c.Fits? ==> c.limit == Pow2(bits - 1) - 1 || c.limit == 0 - Pow2(bits - 1)
  {}

  lemma LimitUnsigned(v: int, bits: nat, policy: Policy)
    ensures var c := CheckUnsigned(ToU64(v), 0, bits, policy);
      policy == Sat && !c.Fits? ==> c.limit == Pow2(bits) - 1 || c.limit == 0
  {}

  /** A value in range, stored modulo the machine word, is read back as itself. */
  lemma ReadBack(s: seq<Byte>, offset: nat, bits: nat, sign: bool, v: int)
    requires WidthOk(bits, sign) && Fitting(v, bits, sign) && ReadU(s, offset, bits) == ToU64(v) % Pow2(bits)
    ensures Read(s, offset, bits, sign) == v
  {
    hide Pow2, ReadU, ToU64;
    SignedBounds(bits);
    ModWord(v, bits);
    ModSmall(v, Pow2(bits));
  }

  lemma ModSmall(v: int, p: nat)
    requires p > 0 && 0 - p <= v < p
    ensures v % p == if v < 0 then v + p else v
  {
    if v < 0 {
      ModMultiple(v + p, p, -1);
      assert (v + p) + p * -1 == v;
      Quotient(v + p, p, 0, v + p);
    } else {
      Quotient(v, p, 0, v);
    }
  }

  // ---------------------------------------------------------------- reading through a window

  lemma {:induction false} SameRead(s: seq<Byte>, a: nat, t: seq<Byte>, b: nat, n: nat)
    requires forall k :: 0 <= k < n ==> Ahead(s, a, k) == Ahead(t, b, k)
    ensures ReadU(s, a, n) == ReadU(t, b, n)
  {
    hide PaddedBit;
    if n > 0 {
      SameRead(s, a, t, b, n - 1);
      assert Ahead(s, a, n - 1) == Ahead(t, b, n - 1);
    }
  }

  predicate Ahead(s: seq<Byte>, offset: nat, k: nat) { PaddedBit(s, offset + k) }

  /** GET copies nine bytes, zero padded, and reads from the copy. */
  method Get(src: seq<Byte>, offset: nat, bits: nat, sign: bool) returns (value: int)
    requires WidthOk(bits, sign)
    ensures value == Read(src, offset, bits, sign)
  {
    hide BitOf, ReadU, PaddedBit, Pow2;
    var buf := new Byte[9](_ => 0);
    var byte := offset / 8;
    var i := 0;
    while i < 9
      invariant 0 <= i <= 9
      invariant forall k :: 0 <= k < 9 ==> buf[k] == if k < i && byte + k < |src| then src[byte + k] else 0
    {
      if i + byte >= |src| { break; }
      buf[i] := src[i + byte];
      i := i + 1;
    }
    assert forall k :: 0 <= k < 9 ==> buf[..][k] == if byte + k < |src| then src[byte + k] else 0;
    WindowBits(src, buf[..], byte, offset, bits);
    SameRead(buf[..], offset - 8 * byte, src, offset, bits);
    var at := offset - 8 * byte;
    if sign { value := GetSigned(buf, at, bits); } else { value := GetUnsigned(buf, at, bits); }
  }

  lemma WindowBits(src: seq<Byte>, buf: seq<Byte>, byte: nat, offset: nat, bits: nat)
    requires |buf| == 9 && byte == offset / 8 && bits <= 64
    requires forall k :: 0 <= k < 9 ==> buf[k] == if byte + k < |src| then src[byte + k] else 0
    ensures forall k :: 0 <= k < bits ==> Ahead(buf, offset - 8 * byte, k) == Ahead(src, offset, k)
  {
    hide BitOf;
    forall k | 0 <= k < bits ensures Ahead(buf, offset - 8 * byte, k) == Ahead(src, offset, k) {
      var q := offset - 8 * byte + k;
      assert (offset + k) / 8 == byte + q / 8 && (offset + k) % 8 == q % 8;
      UniformByte(buf[q / 8], q % 8);
    }
  }
}
