/** The checksum that maps keys to hash slots: table driven, and as polynomial division bit by bit. */
module Crc16 {

  type Byte = bv8

  // ---------------------------------------------------------------- the table

  /** One row of eight entries, indexed by the low three bits. */
  function Pick(i: Byte, a: bv16, b: bv16, c: bv16, d: bv16, e: bv16, f: bv16, g: bv16, h: bv16): bv16 {
    if i & 7 == 0 then a else if i & 7 == 1 then b else if i & 7 == 2 then c else if i & 7 == 3 then d
    else if i & 7 == 4 then e else if i & 7 == 5 then f else if i & 7 == 6 then g else h
  }

  function Table(i: Byte): bv16 {
    if i < 0x8 then Pick(i, 0x0000, 0x1021, 0x2042, 0x3063, 0x4084, 0x50a5, 0x60c6, 0x70e7)
    else if i < 0x10 then Pick(i, 0x8108, 0x9129, 0xa14a, 0xb16b, 0xc18c, 0xd1ad, 0xe1ce, 0xf1ef)
    else if i < 0x18 then Pick(i, 0x1231, 0x0210, 0x3273, 0x2252, 0x52b5, 0x4294, 0x72f7, 0x62d6)
    else if i < 0x20 then Pick(i, 0x9339, 0x8318, 0xb37b, 0xa35a, 0xd3bd, 0xc39c, 0xf3ff, 0xe3de)
    else if i < 0x28 then Pick(i, 0x2462, 0x3443, 0x0420, 0x1401, 0x64e6, 0x74c7, 0x44a4, 0x5485)
    else if i < 0x30 then Pick(i, 0xa56a, 0xb54b, 0x8528, 0x9509, 0xe5ee, 0xf5cf, 0xc5ac, 0xd58d)
    else if i < 0x38 then Pick(i, 0x3653, 0x2672, 0x1611, 0x0630, 0x76d7, 0x66f6, 0x5695, 0x46b4)
    else if i < 0x40 then Pick(i, 0xb75b, 0xa77a, 0x9719, 0x8738, 0xf7df, 0xe7fe, 0xd79d, 0xc7bc)
    else if i < 0x48 then Pick(i, 0x48c4, 0x58e5, 0x6886, 0x78a7, 0x0840, 0x1861, 0x2802, 0x3823)
    else if i < 0x50 then Pick(i, 0xc9cc, 0xd9ed, 0xe98e, 0xf9af, 0x8948, 0x9969, 0xa90a, 0xb92b)
    else if i < 0x58 then Pick(i, 0x5af5, 0x4ad4, 0x7ab7, 0x6a96, 0x1a71, 0x0a50, 0x3a33, 0x2a12)
    else if i < 0x60 then Pick(i, 0xdbfd, 0xcbdc, 0xfbbf, 0xeb9e, 0x9b79, 0x8b58, 0xbb3b, 0xab1a)
    else if i < 0x68 then Pick(i, 0x6ca6, 0x7c87, 0x4ce4, 0x5cc5, 0x2c22, 0x3c03, 0x0c60, 0x1c41)
    else if i < 0x70 then Pick(i, 0xedae, 0xfd8f, 0xcdec, 0xddcd, 0xad2a, 0xbd0b, 0x8d68, 0x9d49)
    else if i < 0x78 then Pick(i, 0x7e97, 0x6eb6, 0x5ed5, 0x4ef4, 0x3e13, 0x2e32, 0x1e51, 0x0e70)
    else if i < 0x80 then Pick(i, 0xff9f, 0xefbe, 0xdfdd, 0xcffc, 0xbf1b, 0xaf3a, 0x9f59, 0x8f78)
    else if i < 0x88 then Pick(i, 0x9188, 0x81a9, 0xb1ca, 0xa1eb, 0xd10c, 0xc12d, 0xf14e, 0xe16f)
    else if i < 0x90 then Pick(i, 0x1080, 0x00a1, 0x30c2, 0x20e3, 0x5004, 0x4025, 0x7046, 0x6067)
    else if i < 0x98 then Pick(i, 0x83b9, 0x9398, 0xa3fb, 0xb3da, 0xc33d, 0xd31c, 0xe37f, 0xf35e)
    else if i < 0xa0 then Pick(i, 0x02b1, 0x1290, 0x22f3, 0x32d2, 0x4235, 0x5214, 0x6277, 0x7256)
    else if i < 0xa8 then Pick(i, 0xb5ea, 0xa5cb, 0x95a8, 0x8589, 0xf56e, 0xe54f, 0xd52c, 0xc50d)
    else if i < 0xb0 then Pick(i, 0x34e2, 0x24c3, 0x14a0, 0x0481, 0x7466, 0x6447, 0x5424, 0x4405)
    else if i < 0xb8 then Pick(i, 0xa7db, 0xb7fa, 0x8799, 0x97b8, 0xe75f, 0xf77e, 0xc71d, 0xd73c)
    else if i < 0xc0 then Pick(i, 0x26d3, 0x36f2, 0x0691, 0x16b0, 0x6657, 0x7676, 0x4615, 0x5634)
    else if i < 0xc8 then Pick(i, 0xd94c, 0xc96d, 0xf90e, 0xe92f, 0x99c8, 0x89e9, 0xb98a, 0xa9ab)
    else if i < 0xd0 then Pick(i, 0x5844, 0x4865, 0x7806, 0x6827, 0x18c0, 0x08e1, 0x3882, 0x28a3)
    else if i < 0xd8 then Pick(i, 0xcb7d, 0xdb5c, 0xeb3f, 0xfb1e, 0x8bf9, 0x9bd8, 0xabbb, 0xbb9a)
    else if i < 0xe0 then Pick(i, 0x4a75, 0x5a54, 0x6a37, 0x7a16, 0x0af1, 0x1ad0, 0x2ab3, 0x3a92)
    else if i < 0xe8 then Pick(i, 0xfd2e, 0xed0f, 0xdd6c, 0xcd4d, 0xbdaa, 0xad8b, 0x9de8, 0x8dc9)
    else if i < 0xf0 then Pick(i, 0x7c26, 0x6c07, 0x5c64, 0x4c45, 0x3ca2, 0x2c83, 0x1ce0, 0x0cc1)
    else if i < 0xf8 then Pick(i, 0xef1f, 0xff3e, 0xcf5d, 0xdf7c, 0xaf9b, 0xbfba, 0x8fd9, 0x9ff8)
    else Pick(i, 0x6e17, 0x7e36, 0x4e55, 0x5e74, 0x2e93, 0x3eb2, 0x0ed1, 0x1ef0)
  }

  // ---------------------------------------------------------------- division by the polynomial

  function Xor(x: bv16, y: bv16): bv16 { x ^ y }
  function Twice(x: bv16): bv16 { x << 1 }
  predicate Top(x: bv16) { x & 0x8000 != 0 }

  /** x^12 + x^5 + 1: what x^16 leaves when divided by x^16 + x^12 + x^5 + 1. */
  const POLY: bv16 := 0x1021

  /** One bit of the division. */
  function Step(r: bv16): bv16 { if Top(r) then Xor(Twice(r), POLY) else Twice(r) }

  function StepN(r: bv16, n: nat): bv16 { if n == 0 then r else Step(StepN(r, n - 1)) }

  /** The next bit of the message enters at the top. */
  function Feed(r: bv16, bit: bool): bv16 { Step(if bit then Xor(r, 0x8000) else r) }

  /** The remainder of the message, bit after bit. */
  function Divide(r: bv16, bits: seq<bool>): bv16 {
    if bits == [] then r else Feed(Divide(r, bits[..|bits| - 1]), bits[|bits| - 1])
  }

  /** Bit i of a byte, most significant first. */
  predicate BitAt(b: Byte, i: nat)
    requires i < 8
  {
    b & (if i == 0 then 0x80 else if i == 1 then 0x40 else if i == 2 then 0x20 else if i == 3 then 0x10
         else if i == 4 then 0x08 else if i == 5 then 0x04 else if i == 6 then 0x02 else 0x01) != 0
  }

  function BitsOf(b: Byte): seq<bool> { seq(8, i requires 0 <= i < 8 => BitAt(b, i)) }

  function Message(s: seq<Byte>): seq<bool> {
    if s == [] then [] else Message(s[..|s| - 1]) + BitsOf(s[|s| - 1])
  }

  // ---------------------------------------------------------------- division is linear

  lemma XorSwap(x: bv16, y: bv16)
    ensures Xor(x, y) == Xor(y, x) && Xor(x, 0) == x && Xor(x, x) == 0
  {}

  lemma XorGroup(x: bv16, y: bv16, z: bv16)
    ensures Xor(Xor(x, y), z) == Xor(x, Xor(y, z))
  {}

  lemma TwiceXor(x: bv16, y: bv16)
    ensures Twice(Xor(x, y)) == Xor(Twice(x), Twice(y))
  {}

  lemma TopXor(x: bv16, y: bv16)
    ensures Top(Xor(x, y)) <==> Top(x) != Top(y)
  {}

  lemma StepXor(x: bv16, y: bv16)
    ensures Step(Xor(x, y)) == Xor(Step(x), Step(y))
  {
    hide Xor, Twice, Top;
    TwiceXor(x, y);
    TopXor(x, y);
    var a, b := Twice(x), Twice(y);
    XorGroup(a, b, POLY);
    XorSwap(b, POLY);
    XorGroup(a, POLY, b);
    XorGroup(Xor(a, POLY), b, POLY);
    XorGroup(a, POLY, Xor(b, POLY));
    XorGroup(POLY, b, POLY);
    XorGroup(b, POLY, POLY);
    XorSwap(POLY, POLY);
    XorSwap(b, 0);
  }

  lemma {:induction false} StepNXor(x: bv16, y: bv16, n: nat)
    ensures StepN(Xor(x, y), n) == Xor(StepN(x, n), StepN(y, n))
  {
    hide Xor, Step;
    if n > 0 {
      StepNXor(x, y, n - 1);
      StepXor(StepN(x, n - 1), StepN(y, n - 1));
    }
  }

  // ---------------------------------------------------------------- a byte at a time

  /** Bit i of a byte, at its place in the upper half of the register. */
  function Place(i: nat): bv16
    requires i < 8
  {
    if i == 0 then 0x8000 else if i == 1 then 0x4000 else if i == 2 then 0x2000 else if i == 3 then 0x1000
    else if i == 4 then 0x0800 else if i == 5 then 0x0400 else if i == 6 then 0x0200 else 0x0100
  }

  /** The first n bits of a byte, in the upper half of the register. */
  function TopBits(b: Byte, n: nat): bv16
    requires n <= 8
  {
    if n == 0 then 0 else Xor(TopBits(b, n - 1), if BitAt(b, n - 1) then Place(n - 1) else 0)
  }

  function Upper(b: Byte): bv16 { (b as bv16) << 8 }

  lemma TopBitsAll(b: Byte)
    ensures TopBits(b, 8) == Upper(b)
  {
    assert TopBits(b, 1) == (Upper(b) & 0x8000);
    assert TopBits(b, 2) == (Upper(b) & 0xC000);
    assert TopBits(b, 4) == (Upper(b) & 0xF000);
    assert TopBits(b, 6) == (Upper(b) & 0xFC00);
  }

  function Steps(r: bv16): bv16 { Step(Step(Step(Step(Step(Step(Step(Step(r)))))))) }

  lemma StepsIs(r: bv16)
    ensures StepN(r, 8) == Steps(r)
  {
    hide Step;
    assert StepN(r, 1) == Step(r);
    assert StepN(r, 2) == Step(Step(r));
    assert StepN(r, 4) == Step(Step(Step(Step(r))));
    assert StepN(r, 6) == Step(Step(Step(Step(Step(Step(r))))));
  }

  lemma PlaceStep(i: nat)
    requires 0 < i < 8
    ensures Step(Place(i)) == Place(i - 1)
  {}

  /** A bit that enters at place n arrives at the top after n steps. */
  lemma {:induction false} Rises(i: nat, n: nat)
    requires n <= i < 8
    ensures StepN(Place(i), n) == Place(i - n)
  {
    hide Step, Place;
    if n > 0 {
      Rises(i, n - 1);
      PlaceStep(i - n + 1);
    }
  }

  lemma TopPlace()
    ensures Place(0) == 0x8000
  {}

  lemma {:induction false} ZeroStays(n: nat)
    ensures StepN(0, n) == 0
  {
    if n > 0 { ZeroStays(n - 1); }
  }

  function FeedN(r: bv16, b: Byte, n: nat): bv16
    requires n <= 8
  {
    if n == 0 then r else Feed(FeedN(r, b, n - 1), BitAt(b, n - 1))
  }

  /** Feeding the bits one by one is xor-ing them in first and dividing afterwards. */
  lemma {:induction false} FeedNIs(r: bv16, b: Byte, n: nat)
    requires n <= 8
    ensures FeedN(r, b, n) == StepN(Xor(r, TopBits(b, n)), n)
  {
    if n == 0 {
      XorSwap(r, 0);
    } else {
      FeedNIs(r, b, n - 1);
      FeedOne(r, b, n - 1);
    }
  }

  lemma FeedOne(r: bv16, b: Byte, n: nat)
    requires n < 8
    ensures Feed(StepN(Xor(r, TopBits(b, n)), n), BitAt(b, n)) == StepN(Xor(r, TopBits(b, n + 1)), n + 1)
  {
    hide Xor, Step, Place, BitAt;
    var x, p := Xor(r, TopBits(b, n)), if BitAt(b, n) then Place(n) else 0;
    XorGroup(r, TopBits(b, n), p);
    StepNXor(x, p, n);
    Rises(n, n);
    TopPlace();
    ZeroStays(n);
    XorSwap(StepN(x, n), 0);
    XorSwap(x, 0);
  }

  /** The table holds the remainders of all bytes. */
  lemma TableIsDivision(i: Byte)
    ensures Table(i) == Steps(Upper(i))
  {}

  /** One round of the loop. */
  function Round(crc: bv16, b: Byte): bv16 { Xor(Up(crc), Table(Index(crc, b))) }

  function Up(crc: bv16): bv16 { crc << 8 }
  function Index(crc: bv16, b: Byte): Byte { ((crc >> 8) as bv8) ^ b }
  function Rest(crc: bv16): bv16 { crc & 0xff }

  lemma Halves(crc: bv16, b: Byte)
    ensures Xor(crc, Upper(b)) == Xor(Rest(crc), Upper(Index(crc, b)))
  {}

  lemma RestRises(crc: bv16)
    ensures Steps(Rest(crc)) == Up(crc)
  {}

  /** A round is the division of one more byte. */
  lemma RoundIs(crc: bv16, b: Byte)
    ensures Round(crc, b) == StepN(Xor(crc, Upper(b)), 8)
  {
    hide Step, Table, Steps, Upper, Xor, Up, Index, Rest;
    var i := Index(crc, b);
    TableIsDivision(i);
    Halves(crc, b);
    RestRises(crc);
    StepNXor(Rest(crc), Upper(i), 8);
    StepsIs(Rest(crc));
    StepsIs(Upper(i));
  }

  // ---------------------------------------------------------------- whole messages

  function Crc(s: seq<Byte>): bv16 { if s == [] then 0 else Round(Crc(s[..|s| - 1]), s[|s| - 1]) }

  method Crc16(buf: seq<Byte>) returns (crc: bv16)
    ensures crc == Crc(buf)
  {
    hide Round;
    crc := 0;
    for counter := 0 to |buf|
      invariant crc == Crc(buf[..counter])
    {
      assert buf[..counter + 1][..counter] == buf[..counter];
      crc := Round(crc, buf[counter]);
    }
    assert buf[..|buf|] == buf;
  }

  lemma {:induction false} DivideAppend(r: bv16, a: seq<bool>, c: seq<bool>)
    ensures Divide(r, a + c) == Divide(Divide(r, a), c)
    decreases |c|
  {
    hide Feed;
    if c == [] {
      assert a + c == a;
    } else {
      assert (a + c)[..|a + c| - 1] == a + c[..|c| - 1];
      DivideAppend(r, a, c[..|c| - 1]);
    }
  }

  lemma {:induction false} DivideByte(r: bv16, b: Byte, n: nat)
    requires n <= 8
    ensures Divide(r, BitsOf(b)[..n]) == FeedN(r, b, n)
  {
    hide Feed, BitAt;
    if n > 0 {
      DivideByte(r, b, n - 1);
      assert BitsOf(b)[..n][..n - 1] == BitsOf(b)[..n - 1];
    }
  }

  /** The table-driven checksum is the remainder of the division of the message, bit by bit. */
  lemma {:induction false} CrcIsRemainder(s: seq<Byte>)
    ensures Crc(s) == Divide(0, Message(s))
  {
    hide Feed, BitAt, Round, StepN, TopBits, FeedN, Xor;
    if s != [] {
      var r, b := Crc(s[..|s| - 1]), s[|s| - 1];
      CrcIsRemainder(s[..|s| - 1]);
      RoundIs(r, b);
      FeedNIs(r, b, 8);
      TopBitsAll(b);
      DivideByte(r, b, 8);
      assert BitsOf(b)[..8] == BitsOf(b);
      DivideAppend(0, Message(s[..|s| - 1]), BitsOf(b));
    }
  }

  function High(r: bv16): Byte { (r >> 8) as bv8 }
  function Low(r: bv16): Byte { (r & 0xff) as bv8 }

  lemma RoundHigh(r: bv16)
    ensures Round(r, High(r)) == Upper(Low(r))
  {
    assert Index(r, High(r)) == 0;
    assert Table(0) == 0;
  }

  lemma RoundUpper(b: Byte)
    ensures Round(Upper(b), b) == 0
  {
    assert Index(Upper(b), b) == 0;
    assert Table(0) == 0;
  }

  /** A message followed by its checksum, high byte first, leaves no remainder. */
  lemma ResidueIsZero(s: seq<Byte>)
    ensures Crc(s + [High(Crc(s)), Low(Crc(s))]) == 0
  {
    hide Round, Upper, High, Low;
    var r := Crc(s);
    var t, u := s + [High(r)], s + [High(r), Low(r)];
    assert t[..|s|] == s && u[..|s| + 1] == t;
    assert Crc(t) == Round(r, High(r));
    RoundHigh(r);
    RoundUpper(Low(r));
  }

  // ---------------------------------------------------------------- hash slots

  const OPEN: Byte := 0x7b
  const CLOSE: Byte := 0x7d

  function SlotOf(s: seq<Byte>): bv16 { Crc(s) & 0x3FFF }

  /** The first index of c from `from` on, or the length. */
  function IndexOf(s: seq<Byte>, c: Byte, from: nat): (i: nat)
    requires from <= |s|
    ensures from <= i <= |s| && c !in s[from..i] && (i < |s| ==> s[i] == c)
    decreases |s| - from
  {
    if from == |s| || s[from] == c then from else IndexOf(s, c, from + 1)
  }

  /** The part of the key that is hashed: what stands between the first opening brace and the
      first closing brace after it, if that is not empty. */
  function Tag(key: seq<Byte>): seq<Byte> {
    var s := IndexOf(key, OPEN, 0);
    if s == |key| then key
    else
      var e := IndexOf(key, CLOSE, s + 1);
      if e == |key| || e == s + 1 then key else key[s + 1..e]
  }

  method KeyHashSlot(key: seq<Byte>) returns (slot: bv16)
    ensures slot == SlotOf(Tag(key))
  {
    hide Crc;
    var s := 0;
    while s < |key|
      invariant 0 <= s <= |key| && IndexOf(key, OPEN, s) == IndexOf(key, OPEN, 0)
    {
      if key[s] == OPEN { break; }
      s := s + 1;
    }
    if s == |key| {
      var crc := Crc16(key);
      return crc & 0x3FFF;
    }
    var e := s + 1;
    while e < |key|
      invariant s + 1 <= e <= |key| && IndexOf(key, CLOSE, e) == IndexOf(key, CLOSE, s + 1)
    {
      if key[e] == CLOSE { break; }
      e := e + 1;
    }
    if e == |key| || e == s + 1 {
      var crc := Crc16(key);
      return crc & 0x3FFF;
    }
    var crc := Crc16(key[s + 1..e]);
    return crc & 0x3FFF;
  }

  /** There are 16384 slots, and a key is in that of its checksum modulo their number. */
  lemma SlotIsModulo(s: seq<Byte>)
    ensures SlotOf(s) == Crc(s) % 16384 && SlotOf(s) < 16384
  {
    hide Crc;
    LowBits(Crc(s));
  }

  lemma LowBits(x: bv16)
    ensures x & 0x3FFF == x % 16384 && x & 0x3FFF < 16384
  {}

  const DIGITS: seq<Byte> := [0x31, 0x32, 0x33, 0x34, 0x35, 0x36, 0x37, 0x38, 0x39]

  /** The checksums of the first digits. */
  const SUMS: seq<bv16> := [0x0000, 0x2672, 0x20b5, 0x9752, 0xd789, 0x546c, 0x20e4, 0x86d6, 0x9015, 0x31c3]

  /** The published check value: the checksum of the digits 1 to 9. */
  lemma CheckValue()
    ensures Crc(DIGITS) == 0x31C3
  {
    hide Round, Crc;
    DigitSums(9);
    assert DIGITS[..9] == DIGITS;
  }

  lemma {:induction false} DigitSums(i: nat)
    requires i <= 9
    ensures Crc(DIGITS[..i]) == SUMS[i]
  {
    hide Round;
    if i > 0 {
      DigitSums(i - 1);
      CrcStep(DIGITS, i - 1);
      DigitRound(i - 1);
    }
  }

  lemma DigitRound(i: nat)
    requires i < 9
    ensures Round(SUMS[i], DIGITS[i]) == SUMS[i + 1]
  {
    hide Table;
    TableIsDivision(Index(SUMS[i], DIGITS[i]));
    assert i == 0 || i == 1 || i == 2 || i == 3 || i == 4 || i == 5 || i == 6 || i == 7 || i == 8;
  }

  lemma CrcStep(s: seq<Byte>, i: nat)
    requires i < |s|
    ensures Crc(s[..i + 1]) == Round(Crc(s[..i]), s[i])
  {
    assert s[..i + 1][..i] == s[..i];
  }

  /** Every other key is hashed as a whole: one without an opening brace, without a closing one after
      it, or with nothing between the two. */
  lemma WholeKeyHashed(key: seq<Byte>)
    ensures Tag(key) != key ==> exists s: nat, e: nat :: IsTag(key, s, e) && Tag(key) == key[s + 1..e]
    ensures (forall s: nat, e: nat :: !IsTag(key, s, e)) ==> Tag(key) == key
  {
    var s := IndexOf(key, OPEN, 0);
    if s < |key| {
      var e := IndexOf(key, CLOSE, s + 1);
      assert e < |key| && e != s + 1 ==> IsTag(key, s, e);
    }
  }

  /** The first opening brace is at s, and the first closing one after it at e, not next to it. */
  predicate IsTag(key: seq<Byte>, s: nat, e: nat) {
    && s + 1 < e < |key| && key[s] == OPEN && key[e] == CLOSE
    && OPEN !in key[..s] && CLOSE !in key[s + 1..e]
  }

  /** A tag is hashed as it stands when it is a key of its own: all keys with a tag share its slot. */
  lemma TagOfTag(key: seq<Byte>)
    ensures Tag(Tag(key)) == Tag(key)
  {
    var tag := Tag(key);
    if tag != key {
      assert CLOSE !in tag;
      var s := IndexOf(tag, OPEN, 0);
      if s < |tag| { NoIndex(tag, CLOSE, s + 1); }
    }
  }

  /** Keys of the form prefix{tag}suffix, with no brace before the tag and none closing in it. */
  lemma SameTagSameSlot(prefix: seq<Byte>, tag: seq<Byte>, suffix: seq<Byte>)
    requires OPEN !in prefix && tag != [] && CLOSE !in tag
    ensures Tag(prefix + [OPEN] + tag + [CLOSE] + suffix) == tag
    ensures SlotOf(Tag(prefix + [OPEN] + tag + [CLOSE] + suffix)) == SlotOf(Tag(tag))
  {
    var key := prefix + [OPEN] + tag + [CLOSE] + suffix;
    var s, e := |prefix|, |prefix| + 1 + |tag|;
    IndexIs(key, OPEN, 0, s);
    IndexIs(key, CLOSE, s + 1, e);
    assert key[s + 1..e] == tag;
    TagOfTag(key);
  }

  lemma {:induction false} NoIndex(s: seq<Byte>, c: Byte, from: nat)
    requires from <= |s| && c !in s
    ensures IndexOf(s, c, from) == |s|
    decreases |s| - from
  {
    if from < |s| { NoIndex(s, c, from + 1); }
  }

  lemma {:induction false} IndexIs(s: seq<Byte>, c: Byte, from: nat, i: nat)
    requires from <= i < |s| && s[i] == c && forall k :: from <= k < i ==> s[k] != c
    ensures IndexOf(s, c, from) == i
    decreases i - from
  {
    if from < i { IndexIs(s, c, from + 1, i); }
  }
}
