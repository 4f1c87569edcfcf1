/** BITCOUNT: counting set bits 28 bytes at a time, and correcting the edges of a range of bits. */
module BitCount {
  import opened BitString
  import opened MachineWord

  // ---------------------------------------------------------------- the plain count

  /** Number of set bits in [lo, hi). */
  function CountIn(s: seq<Byte>, lo: nat, hi: nat): nat
    requires hi <= 8 * |s|
    decreases hi - lo
  {
    if lo >= hi then 0 else CountIn(s, lo, hi - 1) + Flag(GetBit(s, hi - 1))
  }

  /** The entry of the table of bits per byte. */
  function Pop(b: Byte): nat {
    Flag(BitOf(b, 0)) + Flag(BitOf(b, 1)) + Flag(BitOf(b, 2)) + Flag(BitOf(b, 3))
    + Flag(BitOf(b, 4)) + Flag(BitOf(b, 5)) + Flag(BitOf(b, 6)) + Flag(BitOf(b, 7))
  }

  function Pops(s: seq<Byte>): nat {
    if s == [] then 0 else Pops(s[..|s| - 1]) + Pop(s[|s| - 1])
  }

  lemma {:induction false} PopsAppend(s: seq<Byte>, t: seq<Byte>)
    ensures Pops(s + t) == Pops(s) + Pops(t)
  {
    if t == [] {
      assert s + t == s;
    } else {
      assert (s + t)[..|s + t| - 1] == s + t[..|t| - 1];
      PopsAppend(s, t[..|t| - 1]);
    }
  }

  // ---------------------------------------------------------------- machine words and naturals

  function Val(x: bv32): nat { x as nat }
  function Plus(x: bv32, y: bv32): bv32 { x + y }
  function Inc(x: bv32): bv32 { x + 1 }
  function Dec(x: bv32): bv32 { x - 1 }

  lemma ValInc(z: bv32)
    requires z < 0x200
    ensures Val(Inc(z)) == Val(z) + 1
  {}

  lemma IncDec(y: bv32)
    requires 0 < y <= 0xff
    ensures Inc(Dec(y)) == y && Dec(y) <= 0xff
  {}

  lemma PlusInc(x: bv32, y: bv32)
    requires 0 < y <= 0xff && x <= 0xff
    ensures Plus(x, y) == Inc(Plus(x, Dec(y))) && Plus(x, Dec(y)) < 0x200
  {}

  lemma PlusZero(x: bv32)
    ensures Plus(x, 0) == x && Val(0) == 0
  {}

  lemma AddNat(x: bv32, y: bv32)
    requires x <= 0xff && y <= 0xff
    ensures (x + y) as nat == x as nat + y as nat
  {
    hide Val, Plus;
    PlusVal(x, y);
    PlusIs(x, y);
    ValIs(x);
    ValIs(y);
    ValIs(x + y);
  }

  lemma PlusIs(x: bv32, y: bv32)
    ensures Plus(x, y) == x + y
  {}

  lemma ValIs(x: bv32)
    ensures Val(x) == x as nat
  {}

  lemma {:induction false} PlusVal(x: bv32, y: bv32)
    requires x <= 0xff && y <= 0xff
    ensures Val(Plus(x, y)) == Val(x) + Val(y)
    decreases Val(y)
  {
    hide Val, Inc, Dec, Plus;
    if y == 0 {
      PlusZero(x);
    } else {
      IncDec(y);
      ValInc(Dec(y));
      PlusVal(x, Dec(y));
      PlusInc(x, y);
      ValInc(Plus(x, Dec(y)));
    }
  }

  // ---------------------------------------------------------------- 32 bits at once

  /** Replaces every byte of the word by the number of its set bits. */
  function Steps(x: bv32): bv32 {
    var p := x - ((x >> 1) & 0x55555555);
    var q := (p & 0x33333333) + ((p >> 2) & 0x33333333);
    (q + (q >> 4)) & 0x0F0F0F0F
  }

  function Times(x: bv32): bv32 { x * 0x01010101 }

  function Load(a: bv8, b: bv8, c: bv8, d: bv8): bv32 {
    (a as bv32) | ((b as bv32) << 8) | ((c as bv32) << 16) | ((d as bv32) << 24)
  }

  function One(b: bv32, m: bv32): bv32 { if b & m != 0 then 1 else 0 }

  function Ones(b: bv32): bv32 {
    One(b, 0x80) + One(b, 0x40) + One(b, 0x20) + One(b, 0x10) + One(b, 0x08) + One(b, 0x04) + One(b, 0x02)
        + One(b, 0x01)
  }

  lemma Lane0(x: bv32)
    ensures Steps(x) & 0xff == Ones(x & 0xff)
  {}

  lemma Lane1(x: bv32)
    ensures (Steps(x) >> 8) & 0xff == Ones((x >> 8) & 0xff)
  {}

  lemma Lane2(x: bv32)
    ensures (Steps(x) >> 16) & 0xff == Ones((x >> 16) & 0xff)
  {}

  lemma Lane3(x: bv32)
    ensures Steps(x) >> 24 == Ones(x >> 24)
  {}

  lemma LoadLanes(a: bv8, b: bv8, c: bv8, d: bv8)
    ensures Load(a, b, c, d) & 0xff == a as bv32 && (Load(a, b, c, d) >> 8) & 0xff == b as bv32
    ensures (Load(a, b, c, d) >> 16) & 0xff == c as bv32 && Load(a, b, c, d) >> 24 == d as bv32
  {}

  lemma OneMore(x: bv32, b: bv32, m: bv32, n: bv32)
    requires x <= n && n <= 0x0f
    ensures Val(Plus(x, One(b, m))) == Val(x) + Flag(b & m != 0) && Plus(x, One(b, m)) <= n + 1
  {}

  lemma OnesIs(b: bv32)
    ensures Ones(b) == Plus(Plus(Plus(Plus(Plus(Plus(Plus(
                         One(b, 0x80), One(b, 0x40)), One(b, 0x20)), One(b, 0x10)), One(b, 0x08)),
                         One(b, 0x04)), One(b, 0x02)), One(b, 0x01))
  {}

  lemma OnesVal(b: bv8)
    ensures Ones(b as bv32) <= 8 && Val(Ones(b as bv32)) == Pop(b)
  {
    hide Val, Plus, One, Ones;
    var w := b as bv32;
    OnesIs(w);
    FirstOne(w);
    var p := One(w, 0x80);
    OneMore(p, w, 0x40, 1);
    var q := Plus(p, One(w, 0x40));
    OneMore(q, w, 0x20, 2);
    var r := Plus(q, One(w, 0x20));
    OneMore(r, w, 0x10, 3);
    var t := Plus(r, One(w, 0x10));
    OneMore(t, w, 0x08, 4);
    var u := Plus(t, One(w, 0x08));
    OneMore(u, w, 0x04, 5);
    var v := Plus(u, One(w, 0x04));
    OneMore(v, w, 0x02, 6);
    OneMore(Plus(v, One(w, 0x02)), w, 0x01, 7);
    SameBits(b);
  }

  lemma FirstOne(w: bv32)
    ensures One(w, 0x80) <= 1 && Val(One(w, 0x80)) == Flag(w & 0x80 != 0)
  {}

  lemma SameBits(b: bv8)
    ensures var w := b as bv32;
      && (w & 0x80 != 0 <==> BitOf(b, 0)) && (w & 0x40 != 0 <==> BitOf(b, 1)) && (w & 0x20 != 0 <==> BitOf(b, 2))
      && (w & 0x10 != 0 <==> BitOf(b, 3)) && (w & 0x08 != 0 <==> BitOf(b, 4)) && (w & 0x04 != 0 <==> BitOf(b, 5))
      && (w & 0x02 != 0 <==> BitOf(b, 6)) && (w & 0x01 != 0 <==> BitOf(b, 7))
  {}

  // ---------------------------------------------------------------- seven words

  /** No byte of the word is above m. */
  predicate Below(s: bv32, m: bv32) { s & 0xff <= m && (s >> 8) & 0xff <= m && (s >> 16) & 0xff <= m && s >> 24 <= m }

  /** The sum of the bytes of a word. */
  function Sum(s: bv32): nat {
    (s & 0xff) as nat + ((s >> 8) & 0xff) as nat + ((s >> 16) & 0xff) as nat + (s >> 24) as nat
  }

  lemma BelowFree(s: bv32, m: bv32)
    requires m <= 0x7f && Below(s, m)
    ensures s & 0x80808080 == 0
  {}

  /** Bytes that stay below 128 are added without carry. */
  lemma AddNoCarry(s: bv32, r: bv32)
    requires s & 0x80808080 == 0 && r & 0x80808080 == 0
    ensures (s + r) & 0xff == (s & 0xff) + (r & 0xff)
    ensures ((s + r) >> 8) & 0xff == ((s >> 8) & 0xff) + ((r >> 8) & 0xff)
    ensures ((s + r) >> 16) & 0xff == ((s >> 16) & 0xff) + ((r >> 16) & 0xff)
    ensures (s + r) >> 24 == (s >> 24) + (r >> 24)
  {}

  lemma AddBelow(a: bv32, b: bv32, m: bv32)
    requires m <= 48 && a <= m && b <= 8
    ensures a + b <= m + 8
  {}

  lemma AddWordBelow(s: bv32, r: bv32, m: bv32)
    requires m <= 48 && Below(s, m) && Below(r, 8)
    ensures Below(s + r, m + 8)
  {
    BelowFree(s, m);
    BelowFree(r, 8);
    AddNoCarry(s, r);
    AddBelow(s & 0xff, r & 0xff, m);
    AddBelow((s >> 8) & 0xff, (r >> 8) & 0xff, m);
    AddBelow((s >> 16) & 0xff, (r >> 16) & 0xff, m);
    AddBelow(s >> 24, r >> 24, m);
  }

  lemma ByteBound(x: bv32)
    ensures x & 0xff <= 0xff && x >> 24 <= 0xff
  {}

  lemma AddSums(s: bv32, r: bv32, m: bv32)
    requires m <= 48 && Below(s, m) && Below(r, 8)
    ensures Sum(s + r) == Sum(s) + Sum(r)
  {
    BelowFree(s, m);
    BelowFree(r, 8);
    hide Below;
    AddNoCarry(s, r);
    ByteBound(s);
    ByteBound(r);
    ByteBound(s >> 8);
    ByteBound(r >> 8);
    ByteBound(s >> 16);
    ByteBound(r >> 16);
    AddNat(s & 0xff, r & 0xff);
    AddNat((s >> 8) & 0xff, (r >> 8) & 0xff);
    AddNat((s >> 16) & 0xff, (r >> 16) & 0xff);
    AddNat(s >> 24, r >> 24);
  }

  lemma StepsCount(a: bv8, b: bv8, c: bv8, d: bv8)
    ensures var r := Steps(Load(a, b, c, d)); Below(r, 8) && Sum(r) == Pop(a) + Pop(b) + Pop(c) + Pop(d)
  {
    hide Steps, Ones, Load, Pop;
    var x := Load(a, b, c, d);
    LoadLanes(a, b, c, d);
    Lane0(x);
    Lane1(x);
    Lane2(x);
    Lane3(x);
    OnesVal(a);
    OnesVal(b);
    OnesVal(c);
    OnesVal(d);
    hide Val;
    ValIs(Ones(a as bv32));
    ValIs(Ones(b as bv32));
    ValIs(Ones(c as bv32));
    ValIs(Ones(d as bv32));
  }

  lemma RawTimes(x: bv32)
    ensures x * 0x01010101 == (x + (x << 8)) + ((x << 16) + (x << 24))
  {}

  lemma TimesIs(x: bv32)
    ensures Times(x) == (x + (x << 8)) + ((x << 16) + (x << 24))
  {
    RawTimes(x);
  }

  lemma RawTop(s: bv32)
    requires s & 0xC0C0C0C0 == 0
    ensures ((s + (s << 8)) + ((s << 16) + (s << 24))) >> 24
        == ((s >> 24) + ((s >> 16) & 0xff)) + (((s >> 8) & 0xff) + (s & 0xff))
  {}

  lemma TopIs(s: bv32)
    requires s & 0xC0C0C0C0 == 0
    ensures Times(s) >> 24 == ((s >> 24) + ((s >> 16) & 0xff)) + (((s >> 8) & 0xff) + (s & 0xff))
  {
    hide Times;
    TimesIs(s);
    RawTop(s);
  }

  lemma BelowBits(s: bv32)
    requires Below(s, 56)
    ensures s & 0xC0C0C0C0 == 0
  {}

  lemma SmallPair(a: bv32, b: bv32)
    requires a <= 56 && b <= 56
    ensures a + b <= 0xff
  {}

  /** The multiplication adds up the four bytes in the topmost one: at most 224, so nothing is lost. */
  lemma TimesSums(s: bv32)
    requires Below(s, 56)
    ensures (Times(s) >> 24) as nat == Sum(s)
  {
    hide Times;
    BelowBits(s);
    TopIs(s);
    SmallPair(s >> 24, (s >> 16) & 0xff);
    SmallPair((s >> 8) & 0xff, s & 0xff);
    AddNat(s >> 24, (s >> 16) & 0xff);
    AddNat((s >> 8) & 0xff, s & 0xff);
    AddNat((s >> 24) + ((s >> 16) & 0xff), ((s >> 8) & 0xff) + (s & 0xff));
  }

  // ---------------------------------------------------------------- counting a string

  function Bound(k: nat): bv32
    requires k <= 7
  {
    if k == 0 then 0 else if k == 1 then 8 else if k == 2 then 16 else if k == 3 then 24
    else if k == 4 then 32 else if k == 5 then 40 else if k == 6 then 48 else 56
  }

  lemma BoundStep(k: nat)
    requires k < 7
    ensures Bound(k) <= 48 && Bound(k + 1) == Bound(k) + 8
  {}

  lemma SumZero()
    ensures Sum(0) == 0 && Below(0, 0)
  {}

  lemma PopsNext(s: seq<Byte>, i: nat, j: nat)
    requires i <= j < |s|
    ensures Pops(s[i..j + 1]) == Pops(s[i..j]) + Pop(s[j])
  {
    assert s[i..j + 1][..j - i] == s[i..j];
  }

  lemma PopsFour(s: seq<Byte>, i: nat, j: nat)
    requires i <= j && j + 4 <= |s|
    ensures Pops(s[i..j + 4]) == Pops(s[i..j]) + (Pop(s[j]) + Pop(s[j + 1]) + Pop(s[j + 2]) + Pop(s[j + 3]))
  {
    hide Pop;
    PopsNext(s, i, j);
    PopsNext(s, i, j + 1);
    PopsNext(s, i, j + 2);
    PopsNext(s, i, j + 3);
  }

  /** Adds the word at index j to the sums of the block that began at index i. */
  method AddWord(s: seq<Byte>, ghost i: nat, j: nat, sum: bv32, ghost k: nat) returns (r: bv32)
    requires i <= j && j + 4 <= |s| && k < 7
    requires Below(sum, Bound(k)) && Sum(sum) == Pops(s[i..j])
    ensures Below(r, Bound(k + 1)) && Sum(r) == Pops(s[i..j + 4])
  {
    var word := Steps(Load(s[j], s[j + 1], s[j + 2], s[j + 3]));
    hide Below, Sum, Steps, Load, Pop, Pops, Bound;
    BoundStep(k);
    StepsCount(s[j], s[j + 1], s[j + 2], s[j + 3]);
    AddWordBelow(sum, word, Bound(k));
    AddSums(sum, word, Bound(k));
    PopsFour(s, i, j);
    r := sum + word;
  }

  lemma NoPops(s: seq<Byte>)
    ensures Pops(s[..0]) == 0
  {}

  /** Bytes up to a word boundary, blocks of seven words, and the bytes that are left. */
  method RedisPopcount(s: seq<Byte>, align: nat) returns (bits: nat)
    ensures bits == Pops(s)
  {
    hide Pop, Pops;
    bits := 0;
    var c := 0;
    NoPops(s);
    while (align + c) % 4 != 0 && c < |s|
      invariant 0 <= c <= |s| && bits == Pops(s[..c])
      decreases |s| - c
    {
      PopsNext(s, 0, c);
      assert s[0..c] == s[..c] && s[0..c + 1] == s[..c + 1];
      bits := bits + Pop(s[c]);
      c := c + 1;
    }
    while |s| - c >= 28
      invariant 0 <= c <= |s| && bits == Pops(s[..c])
      decreases |s| - c
    {
      var block := PopBlock(s, c);
      PopsAppend(s[..c], s[c..c + 28]);
      assert s[..c] + s[c..c + 28] == s[..c + 28];
      bits := bits + block;
      c := c + 28;
    }
    while c < |s|
      invariant 0 <= c <= |s| && bits == Pops(s[..c])
    {
      PopsNext(s, 0, c);
      assert s[0..c] == s[..c] && s[0..c + 1] == s[..c + 1];
      bits := bits + Pop(s[c]);
      c := c + 1;
    }
    assert s[..|s|] == s;
  }

  method PopBlock(s: seq<Byte>, c: nat) returns (n: nat)
    requires c + 28 <= |s|
    ensures n == Pops(s[c..c + 28])
  {
    hide Below, Sum, Times, Pop, Pops, Bound;
    var sum: bv32 := 0;
    SumZero();
    BlockStart(s, c);
    for k := 0 to 7
      invariant Below(sum, Bound(k)) && Sum(sum) == Pops(s[c..c + 4 * k])
    {
      sum := AddWord(s, c, c + 4 * k, sum, k);
    }
    BlockEnd(sum);
    TimesSums(sum);
    n := (Times(sum) >> 24) as nat;
  }

  lemma BlockStart(s: seq<Byte>, c: nat)
    requires c <= |s|
    ensures Pops(s[c..c]) == 0 && Bound(0) == 0
  {}

  lemma BlockEnd(sum: bv32)
    requires Below(sum, Bound(7))
    ensures Below(sum, 56)
  {}

  // ---------------------------------------------------------------- bits of a range

  lemma {:induction false} CountSplit(s: seq<Byte>, lo: nat, mid: nat, hi: nat)
    requires lo <= mid <= hi <= 8 * |s|
    ensures CountIn(s, lo, hi) == CountIn(s, lo, mid) + CountIn(s, mid, hi)
    decreases hi
  {
    if mid < hi { CountSplit(s, lo, mid, hi - 1); }
  }

  /** Set bits among the first n of a byte. */
  function PartPop(b: Byte, n: nat): nat
    requires n <= 8
  {
    if n == 0 then 0 else PartPop(b, n - 1) + Flag(BitOf(b, n - 1))
  }

  lemma PopParts(b: Byte)
    ensures Pop(b) == PartPop(b, 8)
  {
    hide BitOf;
    assert PartPop(b, 8) == PartPop(b, 6) + Flag(BitOf(b, 6)) + Flag(BitOf(b, 7));
    assert PartPop(b, 6) == PartPop(b, 4) + Flag(BitOf(b, 4)) + Flag(BitOf(b, 5));
    assert PartPop(b, 4) == PartPop(b, 2) + Flag(BitOf(b, 2)) + Flag(BitOf(b, 3));
    assert PartPop(b, 1) == Flag(BitOf(b, 0));
  }

  lemma {:induction false} CountPart(s: seq<Byte>, k: nat, n: nat)
    requires k < |s| && n <= 8
    ensures CountIn(s, 8 * k, 8 * k + n) == PartPop(s[k], n)
  {
    hide BitOf, GetBit;
    if n > 0 {
      CountPart(s, k, n - 1);
      BitAt(s, k, n - 1);
    }
  }

  /** A mask that keeps the first n bits, or those from bit n on. */
  lemma {:induction false} MaskedPart(b: Byte, m: Byte, n: nat, j: nat)
    requires n <= 8 && j <= 8
    ensures (forall i :: 0 <= i < 8 ==> (BitOf(m, i) <==> i < n)) ==>
        PartPop(b & m, j) == PartPop(b, if j < n then j else n)
    ensures (forall i :: 0 <= i < 8 ==> (BitOf(m, i) <==> i >= n)) ==>
        PartPop(b & m, j) + PartPop(b, if j < n then j else n) == PartPop(b, j)
    decreases j
  {
    hide BitOf;
    if j > 0 {
      MaskedPart(b, m, n, j - 1);
      MaskBits(b, m, j - 1);
    }
  }

  /** The two edge corrections: bits of the first byte before lo, bits of the last byte from hi on. */
  lemma EdgeCounts(s: seq<Byte>, lo: nat, hi: nat)
    requires lo < 8 * |s| && 0 < hi <= 8 * |s|
    ensures Pop(s[lo / 8] & BeforeMask(lo)) == CountIn(s, 8 * (lo / 8), lo)
    ensures Pop(s[(hi - 1) / 8] & AfterMask(hi - 1)) == CountIn(s, hi, 8 * ((hi - 1) / 8) + 8)
  {
    BeforeCount(s, lo);
    AfterCount(s, hi);
  }

  lemma BeforeCount(s: seq<Byte>, lo: nat)
    requires lo < 8 * |s|
    ensures Pop(s[lo / 8] & BeforeMask(lo)) == CountIn(s, 8 * (lo / 8), lo)
  {
    hide BitOf, BeforeMask, Pop, PartPop, CountIn;
    var k, n := lo / 8, lo % 8;
    forall i | 0 <= i < 8 ensures BitOf(BeforeMask(lo), i) <==> i < n { EdgeMaskBits(lo, i); }
    MaskedPart(s[k], BeforeMask(lo), n, 8);
    PopParts(s[k] & BeforeMask(lo));
    CountPart(s, k, n);
  }

  lemma AfterCount(s: seq<Byte>, hi: nat)
    requires 0 < hi <= 8 * |s|
    ensures Pop(s[(hi - 1) / 8] & AfterMask(hi - 1)) == CountIn(s, hi, 8 * ((hi - 1) / 8) + 8)
  {
    hide BitOf, AfterMask, Pop, PartPop, CountIn;
    var k, n := (hi - 1) / 8, (hi - 1) % 8 + 1;
    var m := AfterMask(hi - 1);
    forall i | 0 <= i < 8 ensures BitOf(m, i) <==> i >= n { EdgeMaskBits(hi - 1, i); }
    MaskedPart(s[k], m, n, 8);
    PopParts(s[k] & AfterMask(hi - 1));
    CountPart(s, k, n);
    CountPart(s, k, 8);
    CountSplit(s, 8 * k, hi, 8 * k + 8);
  }

  lemma CountNone(s: seq<Byte>, p: nat)
    requires p <= 8 * |s|
    ensures CountIn(s, p, p) == 0
  {}

  /** Whole bytes. */
  lemma {:induction false} CountBytes(s: seq<Byte>, a: nat, b: nat)
    requires a <= b <= |s|
    ensures CountIn(s, 8 * a, 8 * b) == Pops(s[a..b])
    decreases b
  {
    hide Pop, CountIn, PartPop;
    if a == b {
      CountNone(s, 8 * a);
    } else {
      CountBytes(s, a, b - 1);
      CountSplit(s, 8 * a, 8 * (b - 1), 8 * b);
      CountPart(s, b - 1, 8);
      PopParts(s[b - 1]);
      assert s[a..b][..b - 1 - a] == s[a..b - 1];
    }
  }

  // ---------------------------------------------------------------- the command

  lemma PopsPair(a: Byte, b: Byte)
    ensures Pops([a, b]) == Pop(a) + Pop(b)
  {
    hide Pop;
    PopsNext([a, b], 0, 0);
    PopsNext([a, b], 0, 1);
    assert [a, b][0..2] == [a, b] && [a, b][0..0] == [];
  }

  lemma PopZero()
    ensures Pop(0) == 0
  {}

  lemma AndZero(b: Byte)
    ensures b & 0 == 0
  {}

  /** The range is the whole bytes without what the masks cut off at both edges. */
  lemma InnerCount(s: seq<Byte>, first: nat, last: nat, lo: nat, hi: nat)
    requires first <= last < |s| && lo < hi && lo / 8 == first && (hi - 1) / 8 == last
    ensures CountIn(s, 8 * first, 8 * (last + 1))
         == CountIn(s, lo, hi) + Pop(s[first] & BeforeMask(lo)) + Pop(s[last] & AfterMask(hi - 1))
  {
    hide BeforeMask, AfterMask, Pop, CountIn;
    CountSplit(s, 8 * first, lo, 8 * (last + 1));
    CountSplit(s, lo, hi, 8 * (last + 1));
    EdgeCounts(s, lo, hi);
  }

  method CountRange(s: seq<Byte>, align: nat, tmpAlign: nat, first: nat, last: nat, before: Byte, after: Byte,
                    ghost lo: nat, ghost hi: nat) returns (count: nat)
    requires first <= last < |s| && lo < hi && lo / 8 == first && (hi - 1) / 8 == last
    requires before == BeforeMask(lo) && after == AfterMask(hi - 1)
    ensures count == CountIn(s, lo, hi)
  {
    hide BeforeMask, AfterMask, Pop, Pops, CountIn;
    var all := RedisPopcount(s[first..last + 1], align + first);
    CountBytes(s, first, last + 1);
    InnerCount(s, first, last, lo, hi);
    PopZero();
    AndZero(s[first]);
    AndZero(s[last]);
    count := all;
    if before != 0 || after != 0 {
      var head: Byte := if before != 0 then s[first] & before else 0;
      var tail: Byte := if after != 0 then s[last] & after else 0;
      var out := RedisPopcount([head, tail], tmpAlign);
      PopsPair(head, tail);
      count := all - out;
    }
  }

  /** What the count of a range is: nothing if both ends are negative and in the wrong order. */
  function CountAnswer(s: seq<Byte>, r: Range): nat {
    if r.Between? && r.start < 0 && r.end < 0 && r.start > r.end then 0 else CountIn(s, Low(|s|, r), High(|s|, r))
  }

  /** BITCOUNT on an existing string: without a range, or with both of its ends. */
  method BitcountCommand(s: seq<Byte>, align: nat, tmpAlign: nat, r: Range) returns (count: nat)
    requires !r.From?
    ensures count == CountAnswer(s, r)
  {
    hide BeforeMask, AfterMask;
    var start, end := 0, |s| - 1;
    var before, after: Byte := 0, 0;
    if r.Between? {
      if r.start < 0 && r.end < 0 && r.start > r.end { return 0; }
      var total := if r.isBit then 8 * |s| else |s|;
      start, end := Start(r.start, total), End(r.end, total);
      if r.isBit && start <= end {
        before, after := BeforeMask(start), AfterMask(end);
        start, end := start / 8, end / 8;
      }
    }
    ghost var lo, hi := Low(|s|, r), High(|s|, r);
    MaskZero(8 * start);
    if end >= 0 { MaskZero(8 * end + 7); }
    if start > end { return 0; }
    count := CountRange(s, align, tmpAlign, start, end, before, after, lo, hi);
  }

  /** The set bits among those the range takes in. */
  ghost function SetBits(s: seq<Byte>, r: Range): set<nat> {
    set p: nat | p < 8 * |s| && Selects(|s|, r, p) && GetBit(s, p)
  }

  ghost function SetBitsIn(s: seq<Byte>, lo: nat, hi: nat): set<nat>
    requires hi <= 8 * |s|
  {
    set p: nat | lo <= p < hi && GetBit(s, p)
  }

  lemma {:induction false} CountIsSize(s: seq<Byte>, lo: nat, hi: nat)
    requires hi <= 8 * |s|
    ensures CountIn(s, lo, hi) == |SetBitsIn(s, lo, hi)|
    decreases hi - lo
  {
    hide GetBit;
    if lo >= hi {
      assert SetBitsIn(s, lo, hi) == {};
    } else {
      var before, all := SetBitsIn(s, lo, hi - 1), SetBitsIn(s, lo, hi);
      CountIsSize(s, lo, hi - 1);
      if GetBit(s, hi - 1) { assert all == before + {hi - 1}; } else { assert all == before; }
    }
  }

  /** The reply of BITCOUNT: how many set bits the range takes in, or none if both of its ends are
      negative and in the wrong order. */
  lemma CountMeans(s: seq<Byte>, r: Range)
    ensures CountAnswer(s, r)
         == if r.Between? && r.start < 0 && r.end < 0 && r.start > r.end then 0 else |SetBits(s, r)|
  {
    hide GetBit, Selects, Low, High, CountIn;
    var lo, hi := Low(|s|, r), High(|s|, r);
    CountIsSize(s, lo, hi);
    forall p | 0 <= p < 8 * |s| ensures lo <= p < hi <==> Selects(|s|, r, p) { RangeIs(|s|, r, p); }
    assert SetBits(s, r) == SetBitsIn(s, lo, hi);
  }

  /** From the first to the last byte or bit, however these are written, is the whole string. */
  lemma WholeRange(s: seq<Byte>, start: int, isBit: bool)
    requires s != [] && (start == 0 || start == 0 - if isBit then 8 * |s| else |s|)
    ensures CountAnswer(s, Between(start, -1, isBit)) == CountAnswer(s, Whole)
  {
    hide GetBit, CountAnswer;
    CountMeans(s, Between(start, -1, isBit));
    CountMeans(s, Whole);
    assert SetBits(s, Between(start, -1, isBit)) == SetBits(s, Whole);
  }
}
