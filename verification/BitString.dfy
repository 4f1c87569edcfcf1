/** Strings as bit arrays: bit 0 is the most significant bit of the first byte. */
module BitString {
  type Byte = bv8

  /** 0x80 >> i */
  function BitMask(i: nat): Byte
    requires i < 8
  {
    if i == 0 then 0x80 else if i == 1 then 0x40 else if i == 2 then 0x20 else if i == 3 then 0x10
    else if i == 4 then 0x08 else if i == 5 then 0x04 else if i == 6 then 0x02 else 0x01
  }

  predicate BitOf(b: Byte, i: nat)
    requires i < 8
  {
    b & BitMask(i) != 0
  }

  predicate GetBit(s: seq<Byte>, p: nat)
    requires p < 8 * |s|
  {
    BitOf(s[p / 8], p % 8)
  }

  lemma BitAt(s: seq<Byte>, k: nat, i: nat)
    requires k < |s| && i < 8
    ensures 8 * k + i < 8 * |s| && GetBit(s, 8 * k + i) == BitOf(s[k], i)
  {
    assert (8 * k + i) / 8 == k && (8 * k + i) % 8 == i;
  }

  /** Bits past the end read as zero. */
  predicate PaddedBit(s: seq<Byte>, p: nat) { p < 8 * |s| && GetBit(s, p) }

  /** (1 << n) - 1 */
  function LowMask(n: nat): Byte
    requires n <= 8
  {
    if n == 0 then 0x00 else if n == 1 then 0x01 else if n == 2 then 0x03 else if n == 3 then 0x07
    else if n == 4 then 0x0f else if n == 5 then 0x1f else if n == 6 then 0x3f else if n == 7 then 0x7f else 0xff
  }

  /** The bits of the first byte that lie before bit `start`. */
  function BeforeMask(start: nat): Byte { !LowMask(8 - start % 8) }

  /** The bits of the last byte that lie after bit `end`. */
  function AfterMask(end: nat): Byte { LowMask(7 - end % 8) }

  lemma LowMaskBits(n: nat, i: nat)
    requires n <= 8 && i < 8
    ensures BitOf(LowMask(n), i) <==> i >= 8 - n
  {
    assert i == 0 || i == 1 || i == 2 || i == 3 || i == 4 || i == 5 || i == 6 || i == 7;
  }

  predicate IsOneHot(w: Byte) {
    w == 0x80 || w == 0x40 || w == 0x20 || w == 0x10 || w == 0x08 || w == 0x04 || w == 0x02 || w == 0x01
  }

  lemma MaskIsOneHot(i: nat)
    requires i < 8
    ensures IsOneHot(BitMask(i))
  {}

  lemma OneHot(b: Byte, m: Byte, w: Byte)
    requires IsOneHot(w)
    ensures (b & m) & w != 0 <==> b & w != 0 && m & w != 0
    ensures (b | m) & w != 0 <==> b & w != 0 || m & w != 0
    ensures !m & w != 0 <==> m & w == 0
    ensures (b ^ m) & w != 0 <==> (b & w != 0) != (m & w != 0)
  {}

  lemma MaskBits(b: Byte, m: Byte, i: nat)
    requires i < 8
    ensures BitOf(b & m, i) <==> BitOf(b, i) && BitOf(m, i)
    ensures BitOf(b | m, i) <==> BitOf(b, i) || BitOf(m, i)
    ensures BitOf(!m, i) <==> !BitOf(m, i)
    ensures BitOf(b ^ m, i) <==> BitOf(b, i) != BitOf(m, i)
  {
    hide BitMask, IsOneHot;
    MaskIsOneHot(i);
    OneHot(b, m, BitMask(i));
  }

  lemma EdgeMaskBits(k: nat, i: nat)
    requires i < 8
    ensures BitOf(BeforeMask(k), i) <==> i < k % 8
    ensures BitOf(AfterMask(k), i) <==> i > k % 8
  {
    MaskBits(0, LowMask(8 - k % 8), i);
    LowMaskBits(8 - k % 8, i);
    LowMaskBits(7 - k % 8, i);
  }

  lemma MaskZero(k: nat)
    ensures BeforeMask(k) == 0 <==> k % 8 == 0
    ensures AfterMask(k) == 0 <==> k % 8 == 7
  {}

  /** A byte that is not all zeros (ones) has a one (zero), and conversely. */
  lemma ByteNotAll(b: Byte) returns (i: nat)
    ensures i < 8
    ensures b != 0 <==> BitOf(b, i)
  {
    i := if BitOf(b, 0) then 0 else if BitOf(b, 1) then 1 else if BitOf(b, 2) then 2 else if BitOf(b, 3) then 3
         else if BitOf(b, 4) then 4 else if BitOf(b, 5) then 5 else if BitOf(b, 6) then 6 else 7;
  }

  lemma UniformByte(b: Byte, i: nat)
    requires i < 8
    ensures b == 0 ==> !BitOf(b, i)
    ensures b == 0xff ==> BitOf(b, i)
  {
    assert i == 0 || i == 1 || i == 2 || i == 3 || i == 4 || i == 5 || i == 6 || i == 7;
  }

  /** The first bit in [lo, hi) with the given value, found by looking at one bit after the other. */
  function FirstIn(s: seq<Byte>, bit: bool, lo: nat, hi: nat): int
    requires hi <= 8 * |s|
    decreases hi - lo
  {
    if lo >= hi then -1 else if GetBit(s, lo) == bit then lo else FirstIn(s, bit, lo + 1, hi)
  }

  lemma {:induction false} FirstInIs(s: seq<Byte>, bit: bool, lo: nat, hi: nat)
    requires hi <= 8 * |s|
    ensures var f := FirstIn(s, bit, lo, hi);
      if f < 0 then f == -1 && forall p :: lo <= p < hi ==> GetBit(s, p) != bit
      else lo <= f < hi && GetBit(s, f) == bit && forall p :: lo <= p < f ==> GetBit(s, p) != bit
    decreases hi - lo
  {
    if lo < hi && GetBit(s, lo) != bit { FirstInIs(s, bit, lo + 1, hi); }
  }

  // ---------------------------------------------------------------- ranges

  /** The optional arguments: nothing, a first byte, or both ends as bytes or bits. */
  datatype Range = Whole | From(start: int) | Between(start: int, end: int, isBit: bool)

  /** Negative indexes count from the end; both are then clamped. */
  function Start(start: int, total: nat): nat {
    if start >= 0 then start else if total + start >= 0 then total + start else 0
  }

  function End(end: int, total: nat): int {
    var e := if end >= 0 then end else if total + end >= 0 then total + end else 0;
    if e >= total then total - 1 else e
  }

  /** First bit of the range, and the bit after the last. */
  function Low(len: nat, r: Range): nat {
    match r
    case Whole => 0
    case From(start) => 8 * Start(start, len)
    case Between(start, end, isBit) => if isBit then Start(start, 8 * len) else 8 * Start(start, len)
  }

  function High(len: nat, r: Range): (h: nat)
    ensures h <= 8 * len
  {
    match r
    case Whole => 8 * len
    case From(_) => 8 * len
    case Between(_, end, isBit) => if isBit then End(end, 8 * len) + 1 else 8 * (End(end, len) + 1)
  }

  /** Index k of n is at or after `start`, which counts from the end if it is negative. */
  predicate FromHere(start: int, n: nat, k: nat) { if start >= 0 then k >= start else k >= n + start }

  /** Index k of n is at or before `end`, which counts from the end if it is negative; an end before the
      beginning stands for the first index. */
  predicate UpTo(end: int, n: nat, k: nat) { if end >= 0 then k <= end else k == 0 || k <= n + end }

  /** The range takes in bit p of a string of `len` bytes. */
  predicate Selects(len: nat, r: Range, p: nat) {
    match r
    case Whole => true
    case From(start) => FromHere(start, len, p / 8)
    case Between(start, end, isBit) =>
      if isBit then FromHere(start, 8 * len, p) && UpTo(end, 8 * len, p)
      else FromHere(start, len, p / 8) && UpTo(end, len, p / 8)
  }

  lemma RangeIs(len: nat, r: Range, p: nat)
    requires p < 8 * len
    ensures Low(len, r) <= p < High(len, r) <==> Selects(len, r, p)
  {}
}
