/** BITPOS: the first bit of a given value in a string, found byte by byte, word by word, and with masked edges. */
module BitPos {
  import opened BitString

  /** The first bit of value `bit`; the string is followed by zeros without end. */
  function Bitpos(s: seq<Byte>, bit: bool): int {
    var f := FirstIn(s, bit, 0, 8 * |s|);
    if f == -1 && !bit then 8 * |s| else f
  }

  lemma FoundAt(s: seq<Byte>, bit: bool, lo: nat, hi: nat, f: nat)
    requires lo <= f < hi <= 8 * |s| && GetBit(s, f) == bit && NoneIn(s, bit, lo, f)
    ensures FirstIn(s, bit, lo, hi) == f
  {
    FirstInIs(s, bit, lo, hi);
  }

  ghost predicate NoneIn(s: seq<Byte>, bit: bool, lo: nat, hi: nat)
    requires hi <= 8 * |s|
  {
    forall p :: lo <= p < hi ==> GetBit(s, p) != bit
  }

  function Skip(bit: bool): Byte { if bit then 0x00 else 0xff }

  /** Bytes that hold no bit of the wanted value can be passed over. */
  lemma SkipBytes(s: seq<Byte>, bit: bool, c: nat, n: nat)
    requires c + n <= |s| && NoneIn(s, bit, 0, 8 * c) && forall k :: c <= k < c + n ==> s[k] == Skip(bit)
    ensures NoneIn(s, bit, 0, 8 * (c + n))
  {
    forall p | 8 * c <= p < 8 * (c + n) ensures GetBit(s, p) != bit {
      assert s[p / 8] == Skip(bit);
      UniformByte(s[p / 8], p % 8);
    }
  }

  /** Bit i of the eight bytes from index c on, zeros past the end. */
  predicate WordBit(s: seq<Byte>, c: nat, i: nat) { PaddedBit(s, 8 * c + i) }

  ghost predicate IsWord(s: seq<Byte>, c: nat, word: seq<bool>) {
    |word| == 64 && forall i :: 0 <= i < 64 ==> word[i] == WordBit(s, c, i)
  }

  /** Something to find in the word, or the end of the string. */
  ghost predicate Stopped(s: seq<Byte>, bit: bool, c: nat) {
    (exists i :: 0 <= i < 64 && WordBit(s, c, i) == bit) || (bit && |s| - c < 8)
  }

  /** Eight bytes from index c on, the first one most significant, zeros past the end. */
  method LoadWord(s: seq<Byte>, c: nat) returns (word: seq<bool>)
    ensures IsWord(s, c, word)
  {
    hide BitOf, PaddedBit;
    word := seq(64, _ => false);
    for j := 0 to 8
      invariant |word| == 64
      invariant forall i :: 64 - 8 * j <= i < 64 ==> word[i] == WordBit(s, c, i - (64 - 8 * j))
    {
      var b: Byte := if c + j < |s| then s[c + j] else 0;
      NewByte(s, c + j, b);
      word := word[8..] + seq(8, i requires 0 <= i < 8 => BitOf(b, i));
    }
  }

  lemma NewByte(s: seq<Byte>, k: nat, b: Byte)
    requires b == if k < |s| then s[k] else 0
    ensures forall i :: 0 <= i < 8 ==> BitOf(b, i) == WordBit(s, k, i)
  {
    forall i | 0 <= i < 8 ensures BitOf(b, i) == WordBit(s, k, i) {
      assert (8 * k + i) / 8 == k && (8 * k + i) % 8 == i;
      UniformByte(b, i);
    }
  }

  /** Where the skipping stopped there is a bit of the wanted value in the next word, or the
      string ends there. */
  lemma StopsInWord(s: seq<Byte>, bit: bool, c: nat)
    requires c <= |s| && (|s| - c < 8 || exists k :: c <= k < c + 8 && s[k] != Skip(bit))
    ensures Stopped(s, bit, c)
  {
    if k :| c <= k < c + 8 && k < |s| && s[k] != Skip(bit) {
      var i := OddBit(s[k], bit);
      NewByte(s, k, s[k]);
      var j := 8 * (k - c) + i;
      assert 8 * c + j == 8 * k + i;
      assert WordBit(s, c, j) == bit;
    } else if !bit {
      assert 8 * c + 63 >= 8 * |s|;
      assert WordBit(s, c, 63) == bit;
    }
  }

  lemma OddBit(b: Byte, bit: bool) returns (i: nat)
    requires b != Skip(bit)
    ensures i < 8 && BitOf(b, i) == bit
  {
    if bit {
      i := ByteNotAll(b);
    } else {
      i := ByteNotAll(!b);
      MaskBits(b, b, i);
    }
  }

  /** `align` is the address of the first byte modulo the word size. */
  method RedisBitpos(s: seq<Byte>, align: nat, bit: bool) returns (pos: int)
    ensures pos == Bitpos(s, bit)
  {
    var c := 0;
    var found := false;
    while (align + c) % 8 != 0 && c < |s|
      invariant 0 <= c <= |s| && NoneIn(s, bit, 0, 8 * c) && !found
      decreases |s| - c
    {
      if s[c] != Skip(bit) {
        found := true;
        break;
      }
      SkipBytes(s, bit, c, 1);
      c := c + 1;
    }
    assert found ==> c < |s| && s[c] != Skip(bit);
    if !found {
      while |s| - c >= 8
        invariant 0 <= c <= |s| && NoneIn(s, bit, 0, 8 * c)
        decreases |s| - c
      {
        if s[c..c + 8] != seq(8, _ => Skip(bit)) { break; }
        assert forall k :: c <= k < c + 8 ==> s[k] == s[c..c + 8][k - c];
        SkipBytes(s, bit, c, 8);
        c := c + 8;
      }
    }
    StopsInWord(s, bit, c);
    var word := LoadWord(s, c);
    pos := LastWord(s, bit, c, word);
  }

  /** The word that is scanned bit by bit. The end of the loop is not reached. */
  method LastWord(s: seq<Byte>, bit: bool, c: nat, word: seq<bool>) returns (pos: int)
    requires c <= |s| && NoneIn(s, bit, 0, 8 * c)
    requires IsWord(s, c, word) && Stopped(s, bit, c)
    ensures pos == Bitpos(s, bit)
  {
    if bit && word == seq(64, _ => false) {
      NoneAtAll(s, c, word);
      return -1;
    }
    var i := 0;
    while i < 64
      invariant 0 <= i <= 64 && forall k :: 0 <= k < i ==> word[k] != bit
    {
      if word[i] == bit {
        Settles(s, bit, c, word, i);
        return 8 * c + i;
      }
      i := i + 1;
    }
    assert false;
    pos := 0;
  }

  lemma NoneAtAll(s: seq<Byte>, c: nat, word: seq<bool>)
    requires c <= |s| && NoneIn(s, true, 0, 8 * c)
    requires IsWord(s, c, word) && Stopped(s, true, c) && forall i :: 0 <= i < 64 ==> !word[i]
    ensures Bitpos(s, true) == -1
  {
    forall p | 8 * c <= p < 8 * |s| ensures !GetBit(s, p) { assert WordBit(s, c, p - 8 * c) == word[p - 8 * c]; }
    FirstInIs(s, true, 0, 8 * |s|);
  }

  lemma Settles(s: seq<Byte>, bit: bool, c: nat, word: seq<bool>, i: nat)
    requires c <= |s| && NoneIn(s, bit, 0, 8 * c)
    requires IsWord(s, c, word)
    requires i < 64 && word[i] == bit && forall k :: 0 <= k < i ==> word[k] != bit
    ensures Bitpos(s, bit) == 8 * c + i
  {
    var f := 8 * c + i;
    forall p | 8 * c <= p < f && p < 8 * |s| ensures GetBit(s, p) != bit { assert word[p - 8 * c] != bit; }
    if f < 8 * |s| {
      FoundAt(s, bit, 0, 8 * |s|, f);
    } else {
      FirstInIs(s, bit, 0, 8 * |s|);
      var q := 8 * |s| - 8 * c;
      assert !WordBit(s, c, q) && !word[q];
    }
  }

  // ---------------------------------------------------------------- ranges

  /** What a bit-by-bit scan of the range answers. Only without an explicit end is the string
      followed by zeros. */
  function Answer(s: seq<Byte>, bit: bool, r: Range): int {
    var lo, hi := Low(|s|, r), High(|s|, r);
    if lo >= hi then -1
    else
      var f := FirstIn(s, bit, lo, hi);
      if f == -1 && !bit && !r.Between? then hi else f
  }

  lemma SplitAt(s: seq<Byte>, bit: bool, lo: nat, mid: nat, hi: nat)
    requires lo <= mid <= hi <= 8 * |s|
    ensures FirstIn(s, bit, lo, hi) ==
      if FirstIn(s, bit, lo, mid) != -1 then FirstIn(s, bit, lo, mid) else FirstIn(s, bit, mid, hi)
  {
    FirstInIs(s, bit, lo, hi);
    FirstInIs(s, bit, lo, mid);
    FirstInIs(s, bit, mid, hi);
  }

  /** Looking in a slice, or in a byte whose bits outside the range have been overwritten. */
  lemma Elsewhere(s: seq<Byte>, t: seq<Byte>, bit: bool, base: nat, a: nat, b: nat)
    requires a <= b <= 8 * |t| && base + b <= 8 * |s|
    requires forall p :: 0 <= p < 8 * |t| ==> GetBit(t, p) == if a <= p < b then GetBit(s, base + p) else !bit
    ensures var f := FirstIn(s, bit, base + a, base + b);
            FirstIn(t, bit, 0, 8 * |t|) == if f == -1 then -1 else f - base
  {
    var f, g := FirstIn(s, bit, base + a, base + b), FirstIn(t, bit, 0, 8 * |t|);
    FirstInIs(s, bit, base + a, base + b);
    FirstInIs(t, bit, 0, 8 * |t|);
    if f >= 0 { assert GetBit(t, f - base) == GetBit(s, base + (f - base)) == bit; }
    if g >= 0 { assert GetBit(s, base + g) == bit; }
  }

  lemma InSlice(s: seq<Byte>, bit: bool, start: nat, n: nat)
    requires start + n <= |s|
    ensures var f := FirstIn(s, bit, 8 * start, 8 * (start + n));
            FirstIn(s[start..start + n], bit, 0, 8 * n) == if f == -1 then -1 else f - 8 * start
  {
    var t := s[start..start + n];
    forall p | 0 <= p < 8 * |t| ensures GetBit(t, p) == GetBit(s, 8 * start + p) {
      assert (8 * start + p) / 8 == start + p / 8 && (8 * start + p) % 8 == p % 8;
    }
    Elsewhere(s, t, bit, 8 * start, 0, 8 * n);
  }

  function Overwrite(b: Byte, mask: Byte, bit: bool): Byte { if bit then b & !mask else b | mask }

  lemma OverwriteBits(b: Byte, mask: Byte, bit: bool, i: nat)
    requires i < 8
    ensures BitOf(Overwrite(b, mask, bit), i) == if BitOf(mask, i) then !bit else BitOf(b, i)
  {
    MaskBits(b, !mask, i);
    MaskBits(b, mask, i);
  }

  lemma EdgesOverwritten(b: Byte, bit: bool, lo: nat, last: nat, p: nat)
    requires p < 8
    ensures BitOf(Overwrite(Overwrite(b, BeforeMask(lo), bit), AfterMask(last), bit), p)
         == if lo % 8 <= p <= last % 8 then BitOf(b, p) else !bit
  {
    hide Overwrite, BeforeMask, AfterMask, BitOf;
    OverwriteBits(Overwrite(b, BeforeMask(lo), bit), AfterMask(last), bit, p);
    OverwriteBits(b, BeforeMask(lo), bit, p);
    EdgeMaskBits(lo, p);
    EdgeMaskBits(last, p);
  }

  /** A byte with the bits before `lo` and after `hi - 1` overwritten. */
  lemma InByte(s: seq<Byte>, bit: bool, k: nat, lo: nat, hi: nat, tmp: Byte)
    requires k < |s| && 8 * k <= lo < hi <= 8 * k + 8
    requires tmp == Overwrite(Overwrite(s[k], BeforeMask(lo), bit), AfterMask(hi - 1), bit)
    ensures var f := FirstIn(s, bit, lo, hi);
            FirstIn([tmp], bit, 0, 8) == if f == -1 then -1 else f - 8 * k
  {
    hide Overwrite, BeforeMask, AfterMask, BitOf;
    var a, b := lo - 8 * k, hi - 8 * k;
    assert lo % 8 == a && (hi - 1) % 8 == b - 1;
    forall p | 0 <= p < 8 ensures BitOf(tmp, p) == if a <= p < b then BitOf(s[k], p) else !bit {
      EdgesOverwritten(s[k], bit, lo, hi - 1, p);
    }
    OneByte(s, bit, k, tmp, a, b);
  }

  lemma OneByte(s: seq<Byte>, bit: bool, k: nat, tmp: Byte, a: nat, b: nat)
    requires k < |s| && a <= b <= 8
    requires forall p :: 0 <= p < 8 ==> BitOf(tmp, p) == if a <= p < b then BitOf(s[k], p) else !bit
    ensures var f := FirstIn(s, bit, 8 * k + a, 8 * k + b);
            FirstIn([tmp], bit, 0, 8) == if f == -1 then -1 else f - 8 * k
  {
    hide BitOf, GetBit, FirstIn;
    forall p | 0 <= p < 8 ensures GetBit([tmp], p) == if a <= p < b then GetBit(s, 8 * k + p) else !bit {
      BitAt([tmp], 0, p);
      BitAt(s, k, p);
    }
    Elsewhere(s, [tmp], bit, 8 * k, a, b);
  }

  // ---------------------------------------------------------------- the command

  /** The reply, from a position relative to byte `start` of the `bytes` bytes searched last. */
  function Reply(pos: int, start: nat, bytes: nat, bit: bool, endGiven: bool): int {
    if endGiven && !bit && pos == 8 * bytes then -1
    else if pos != -1 then pos + 8 * start else pos
  }

  /** The search from bit lo to bit hi - 1, which lie in the bytes `first` and `last`. */
  method SearchRange(s: seq<Byte>, align: nat, tmpAlign: nat, bit: bool, first: nat, last: nat, before: Byte,
      after: Byte,
                     endGiven: bool, ghost lo: nat, ghost hi: nat) returns (pos: int)
    requires first <= last < |s| && lo < hi && lo / 8 == first && (hi - 1) / 8 == last
    requires before == BeforeMask(lo) && after == AfterMask(hi - 1)
    requires !endGiven ==> before == 0 && after == 0
    ensures var f := FirstIn(s, bit, lo, hi); pos == if f == -1 && !bit && !endGiven then hi else f
  {
    hide BeforeMask, AfterMask, BitOf, FirstIn, Overwrite;
    MaskZero(lo);
    MaskZero(hi - 1);
    var start, bytes := first, last - first + 1;
    ghost var from := lo;
    FirstInIs(s, bit, lo, hi);
    if before != 0 {
      var tmp := Overwrite(s[start], before, bit);
      if after != 0 && bytes == 1 { tmp := Overwrite(tmp, after, bit); }
      pos := RedisBitpos([tmp], tmpAlign, bit);
      ghost var mid := if bytes == 1 then hi else 8 * start + 8;
      OverwriteNothing(Overwrite(s[start], before, bit), bit);
      MaskZero(mid - 1);
      InByte(s, bit, start, lo, mid, tmp);
      SplitAt(s, bit, lo, mid, hi);
      FirstInIs(s, bit, lo, mid);
      if bytes == 1 || (pos != -1 && pos != 8) { return Reply(pos, start, bytes, bit, endGiven); }
      start, bytes, from := start + 1, bytes - 1, mid;
    }
    pos := SearchRest(s, align, tmpAlign, bit, start, bytes, last, after, endGiven, from, hi);
  }

  /** The same from a byte boundary on. */
  method SearchRest(s: seq<Byte>, align: nat, tmpAlign: nat, bit: bool, first: nat, count: nat, last: nat, after: Byte,
                    endGiven: bool, ghost lo: nat, ghost hi: nat) returns (pos: int)
    requires count > 0 && first + count == last + 1 <= |s| && lo == 8 * first < hi && (hi - 1) / 8 == last
    requires after == AfterMask(hi - 1) && (!endGiven ==> after == 0)
    ensures var f := FirstIn(s, bit, lo, hi); pos == if f == -1 && !bit && !endGiven then hi else f
  {
    hide BeforeMask, AfterMask, BitOf, FirstIn, Overwrite;
    MaskZero(hi - 1);
    var start, bytes := first, count;
    FirstInIs(s, bit, lo, hi);
    var curbytes := bytes - if after != 0 then 1 else 0;
    if curbytes > 0 {
      pos := RedisBitpos(s[start..start + curbytes], align + start, bit);
      ghost var mid := 8 * (start + curbytes);
      InSlice(s, bit, start, curbytes);
      SplitAt(s, bit, lo, mid, hi);
      FirstInIs(s, bit, lo, mid);
      if bytes == curbytes || (pos != -1 && pos != 8 * curbytes) { return Reply(pos, start, bytes, bit, endGiven); }
      start, bytes := start + curbytes, bytes - curbytes;
    }
    var tmp := Overwrite(s[last], after, bit);
    pos := RedisBitpos([tmp], tmpAlign, bit);
    MaskZero(8 * last);
    OverwriteNothing(s[last], bit);
    InByte(s, bit, last, 8 * last, hi, tmp);
    FirstInIs(s, bit, 8 * last, hi);
    pos := Reply(pos, start, bytes, bit, endGiven);
  }

  lemma OverwriteNothing(b: Byte, bit: bool)
    ensures Overwrite(b, 0, bit) == b
  {}

  /** BITPOS on an existing string. */
  method BitposCommand(s: seq<Byte>, align: nat, tmpAlign: nat, bit: bool, r: Range) returns (reply: int)
    ensures reply == Answer(s, bit, r)
  {
    hide BeforeMask, AfterMask, FirstIn;
    var start, end := 0, |s| - 1;
    var before, after: Byte := 0, 0;
    match r {
      case Whole =>
      case From(first) =>
        start := Start(first, |s|);
        end := End(end, |s|);
      case Between(first, last, isBit) =>
        var total := if isBit then 8 * |s| else |s|;
        start, end := Start(first, total), End(last, total);
        if isBit && start <= end {
          before, after := BeforeMask(start), AfterMask(end);
          start, end := start / 8, end / 8;
        }
    }
    ghost var lo, hi := Low(|s|, r), High(|s|, r);
    MaskZero(8 * start);
    if end >= 0 { MaskZero(8 * end + 7); }
    if start > end { return -1; }
    reply := SearchRange(s, align, tmpAlign, bit, start, end, before, after, r.Between?, lo, hi);
  }

  /** The reply of BITPOS: the first bit with that value among those the range takes in. If there is
      none it is -1, or, looking for a zero without an explicit end, the bit after the string. */
  lemma AnswerMeans(s: seq<Byte>, bit: bool, r: Range)
    ensures var f := Answer(s, bit, r);
      if exists p :: 0 <= p < 8 * |s| && Selects(|s|, r, p) && GetBit(s, p) == bit
      then && 0 <= f < 8 * |s| && Selects(|s|, r, f) && GetBit(s, f) == bit
           && forall p :: 0 <= p < f && Selects(|s|, r, p) ==> GetBit(s, p) != bit
      else f == if !bit && !r.Between? && exists p :: 0 <= p < 8 * |s| && Selects(|s|, r, p) then 8 * |s| else -1
  {
    hide FirstIn, Selects, GetBit, Low, High;
    var lo, hi := Low(|s|, r), High(|s|, r);
    FirstInIs(s, bit, lo, hi);
    forall p | 0 <= p < 8 * |s| ensures lo <= p < hi <==> Selects(|s|, r, p) { RangeIs(|s|, r, p); }
    if lo < hi { assert Selects(|s|, r, lo); }
    OpenEnd(|s|, r);
  }

  lemma OpenEnd(len: nat, r: Range)
    ensures !r.Between? ==> High(len, r) == 8 * len
  {}
}
