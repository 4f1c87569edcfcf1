/** BITOP: combining any number of strings bit by bit, with a fast path over whole words. */
module BitOp {
  import opened BitString
  import opened Wrappers

  datatype Op = And | Or | Xor | Not

  function Combine(op: Op, a: Byte, b: Byte): Byte {
    match op case And => a & b case Or => a | b case Xor => a ^ b case Not => a
  }

  /** A byte of a source; strings are zero padded, missing keys are empty strings. */
  function At(src: Option<seq<Byte>>, p: nat): Byte {
    if src.Some? && p < |src.value| then src.value[p] else 0
  }

  function Len(src: Option<seq<Byte>>): nat { if src.Some? then |src.value| else 0 }

  /** The first n sources combined at position p. */
  function Fold(op: Op, srcs: seq<Option<seq<Byte>>>, p: nat, n: nat): Byte
    requires 0 < n <= |srcs|
  {
    if n == 1 then (if op == Not then !At(srcs[0], p) else At(srcs[0], p))
    else Combine(op, Fold(op, srcs, p, n - 1), At(srcs[n - 1], p))
  }

  lemma RawAnd(b: Byte)
    ensures 0 & b == 0 && 0xff | b == 0xff
  {}

  /** Once all bits are zero under AND, or one under OR, further sources change nothing. */
  lemma {:induction false} Settled(op: Op, srcs: seq<Option<seq<Byte>>>, p: nat, n: nat, m: nat)
    requires 0 < n <= m <= |srcs|
    requires (op == And && Fold(op, srcs, p, n) == 0) || (op == Or && Fold(op, srcs, p, n) == 0xff)
    ensures Fold(op, srcs, p, m) == Fold(op, srcs, p, n)
    decreases m
  {
    if n < m {
      Settled(op, srcs, p, n, m - 1);
      RawAnd(At(srcs[m - 1], p));
    }
  }

  /** Shortest and longest source. */
  method Lengths(srcs: seq<Option<seq<Byte>>>) returns (minlen: nat, maxlen: nat)
    requires srcs != []
    ensures forall i :: 0 <= i < |srcs| ==> minlen <= Len(srcs[i]) <= maxlen
    ensures exists i :: 0 <= i < |srcs| && Len(srcs[i]) == minlen
    ensures exists i :: 0 <= i < |srcs| && Len(srcs[i]) == maxlen
  {
    minlen, maxlen := 0, 0;
    for j := 0 to |srcs|
      invariant forall i :: 0 <= i < j ==> minlen <= Len(srcs[i]) <= maxlen
      invariant j > 0 ==> exists i :: 0 <= i < j && Len(srcs[i]) == minlen
      invariant if j > 0 then exists i :: 0 <= i < j && Len(srcs[i]) == maxlen else maxlen == 0
    {
      if srcs[j].None? {
        minlen := 0;
        continue;
      }
      var len := |srcs[j].value|;
      assert len == Len(srcs[j]);
      if len > maxlen { maxlen := len; }
      if j == 0 || len < minlen { minlen := len; }
    }
  }

  // ---------------------------------------------------------------- words

  function Low(w: bv64): Byte { (w & 0xff) as bv8 }
  function Down(w: bv64): bv64 { w >> 8 }

  /** Byte b of a little-endian machine word. */
  function Lane(w: bv64, b: nat): Byte {
    if b == 0 then Low(w) else Lane(Down(w), b - 1)
  }

  function Join(b: Byte, rest: bv64): bv64 { (b as bv64) | (rest << 8) }

  /** Up to eight bytes as a machine word. */
  function WordOf(s: seq<Byte>): bv64 {
    if s == [] then 0 else Join(s[0], WordOf(s[1..]))
  }

  function Next(m: bv64): bv64 { (m << 8) | 0xff }

  lemma JoinLow(b: bv8, rest: bv64)
    ensures ((b as bv64 | (rest << 8)) & 0xff) as bv8 == b
  {}

  lemma JoinDown(b: bv8, rest: bv64)
    requires rest <= 0xff_ffff_ffff_ffff
    ensures (b as bv64 | (rest << 8)) >> 8 == rest
  {}

  lemma JoinBound(b: bv8, rest: bv64, m: bv64)
    requires rest <= m && m <= 0xff_ffff_ffff_ffff
    ensures b as bv64 | (rest << 8) <= (m << 8) | 0xff
  {}

  lemma JoinParts(b: Byte, rest: bv64, m: bv64)
    requires rest <= m && m <= 0xff_ffff_ffff_ffff
    ensures Low(Join(b, rest)) == b
    ensures Down(Join(b, rest)) == rest
    ensures Join(b, rest) <= Next(m)
  {
    JoinLow(b, rest);
    JoinDown(b, rest);
    JoinBound(b, rest, m);
  }

  /** The greatest word of n bytes. */
  function Full(n: nat): bv64 { if n == 0 then 0 else Next(Full(n - 1)) }

  lemma {:induction false} FullFits(n: nat)
    requires n <= 7
    ensures Full(n) <= 0xff_ffff_ffff_ffff
  {
    assert Full(1) == 0xff && Full(2) == 0xffff;
    assert Full(3) == 0xff_ffff && Full(4) == 0xffff_ffff;
    assert Full(5) == 0xff_ffff_ffff && Full(6) == 0xffff_ffff_ffff;
    assert Full(7) == 0xff_ffff_ffff_ffff;
  }

  /** The bytes of a loaded word are the bytes of the string. */
  lemma {:induction false} WordLane(s: seq<Byte>, b: nat)
    requires |s| <= 8
    ensures WordOf(s) <= Full(|s|)
    ensures b < |s| ==> Lane(WordOf(s), b) == s[b]
  {
    hide Low, Down, Join, Next;
    if s != [] {
      WordLane(s[1..], if b == 0 then 0 else b - 1);
      FullFits(|s| - 1);
      JoinParts(s[0], WordOf(s[1..]), Full(|s| - 1));
    }
  }

  function CombineWords(op: Op, x: bv64, y: bv64): bv64 {
    match op case And => x & y case Or => x | y case Xor => x ^ y case Not => !x
  }

  const ONES: bv64 := 0xffff_ffff_ffff_ffff

  lemma DownAnd(x: bv64, y: bv64)
    ensures Down(CombineWords(And, x, y)) == CombineWords(And, Down(x), Down(y))
  {}

  lemma DownOr(x: bv64, y: bv64)
    ensures Down(CombineWords(Or, x, y)) == CombineWords(Or, Down(x), Down(y))
  {}

  lemma DownXor(x: bv64, y: bv64)
    ensures Down(CombineWords(Xor, x, y)) == CombineWords(Xor, Down(x), Down(y))
  {}

  lemma LowCombine(op: Op, x: bv64, y: bv64)
    requires op != Not
    ensures Low(CombineWords(op, x, y)) == Combine(op, Low(x), Low(y))
  {
    match op { case And => case Or => case Xor => }
  }

  lemma {:induction false} LaneWise(op: Op, x: bv64, y: bv64, b: nat)
    requires op != Not
    ensures Lane(CombineWords(op, x, y), b) == Combine(op, Lane(x, b), Lane(y, b))
    decreases b
  {
    hide Low, Down, CombineWords, Combine;
    if b == 0 {
      LowCombine(op, x, y);
    } else {
      match op { case And => DownAnd(x, y); case Or => DownOr(x, y); case Xor => DownXor(x, y); }
      LaneWise(op, Down(x), Down(y), b - 1);
    }
  }

  lemma NotIsXor(x: bv64, y: bv64)
    ensures CombineWords(Not, x, y) == CombineWords(Xor, x, ONES)
  {}

  lemma XorOnes(c: Byte)
    ensures Combine(Xor, c, 0xff) == !c
  {}

  lemma {:induction false} AllOnes(b: nat)
    requires b < 8
    ensures Lane(ONES, b) == 0xff
  {
    OnesShift(b, 8);
  }

  /** A word of n bytes of ones. */
  lemma {:induction false} OnesShift(b: nat, n: nat)
    requires b < n <= 8
    ensures Lane(Full(n), b) == 0xff && (n == 8 ==> Full(n) == ONES)
    decreases n
  {
    hide Low, Down, Next;
    FullFits(n - 1);
    NextParts(Full(n - 1));
    if n == 8 { FullWord(); }
    if b > 0 { OnesShift(b - 1, n - 1); }
  }

  lemma NextParts(m: bv64)
    requires m <= 0xff_ffff_ffff_ffff
    ensures Low(Next(m)) == 0xff && Down(Next(m)) == m
  {}

  lemma FullWord()
    ensures Full(8) == ONES
  {
    assert Full(2) == 0xffff;
    assert Full(4) == 0xffff_ffff;
    assert Full(6) == 0xffff_ffff_ffff;
  }

  /** Every byte of the combined words is the combination of the bytes. */
  lemma CombineLane(op: Op, x: bv64, y: bv64, b: nat)
    requires b < 8
    ensures Lane(CombineWords(op, x, y), b) == if op == Not then !Lane(x, b) else Combine(op, Lane(x, b), Lane(y, b))
  {
    hide Lane, CombineWords, Combine;
    if op == Not {
      NotIsXor(x, y);
      LaneWise(Xor, x, ONES, b);
      AllOnes(b);
      XorOnes(Lane(x, b));
    } else {
      LaneWise(op, x, y, b);
    }
  }

  method WriteWord(res: array<Byte>, at: nat, w: bv64)
    requires at + 8 <= res.Length
    modifies res
    ensures forall b :: 0 <= b < 8 ==> res[at + b] == Lane(w, b)
    ensures forall p :: 0 <= p < res.Length && !(at <= p < at + 8) ==> res[p] == old(res[p])
  {
    hide Lane;
    for b := 0 to 8
      invariant forall c :: 0 <= c < b ==> res[at + c] == Lane(w, c)
      invariant forall p :: 0 <= p < res.Length && !(at <= p < at + 8) ==> res[p] == old(res[p])
    {
      res[at + b] := Lane(w, b);
    }
  }

  /** One word of a source into the result; NOT has no second operand. */
  method CombineWord(op: Op, src: seq<Byte>, res: array<Byte>, at: nat)
    requires at + 8 <= res.Length && at + 8 <= |src|
    modifies res
    ensures forall p :: at <= p < at + 8 ==>
              res[p] == if op == Not then !old(res[p]) else Combine(op, old(res[p]), src[p])
    ensures forall p :: 0 <= p < res.Length && !(at <= p < at + 8) ==> res[p] == old(res[p])
  {
    hide Lane, WordOf, CombineWords, Combine;
    ghost var was := res[..];
    var x, y := WordOf(res[at..at + 8]), WordOf(src[at..at + 8]);
    WriteWord(res, at, CombineWords(op, x, y));
    forall p | at <= p < at + 8
      ensures res[p] == if op == Not then !was[p] else Combine(op, was[p], src[p])
    {
      var b := p - at;
      assert res[at + b] == Lane(CombineWords(op, x, y), b);
      CombineLane(op, x, y, b);
      WordLane(was[at..at + 8], b);
      WordLane(src[at..at + 8], b);
    }
  }

  /** The number of bytes the fast path takes at a time: four words. */
  const BLOCK: nat := 32

  /** One source into four words of the result. */
  method CombineBlock(op: Op, srcs: seq<Option<seq<Byte>>>, i: nat, res: array<Byte>, j: nat)
    requires op != Not && 0 < i < |srcs| && j + BLOCK <= res.Length && j + BLOCK <= Len(srcs[i])
    requires forall p :: j <= p < j + BLOCK ==> res[p] == Fold(op, srcs, p, i)
    modifies res
    ensures forall p :: j <= p < j + BLOCK ==> res[p] == Fold(op, srcs, p, i + 1)
    ensures forall p :: 0 <= p < res.Length && !(j <= p < j + BLOCK) ==> res[p] == old(res[p])
  {
    hide Combine;
    for k := 0 to 4
      invariant forall p :: j <= p < j + 8 * k ==> res[p] == Fold(op, srcs, p, i + 1)
      invariant forall p :: j + 8 * k <= p < j + BLOCK ==> res[p] == Fold(op, srcs, p, i)
      invariant forall p :: 0 <= p < res.Length && !(j <= p < j + BLOCK) ==> res[p] == old(res[p])
    {
      CombineWord(op, srcs[i].value, res, j + 8 * k);
    }
  }

  method InvertBlock(srcs: seq<Option<seq<Byte>>>, res: array<Byte>, j: nat)
    requires |srcs| == 1 && j + BLOCK <= res.Length && j + BLOCK <= Len(srcs[0])
    requires forall p :: j <= p < j + BLOCK ==> res[p] == At(srcs[0], p)
    modifies res
    ensures forall p :: j <= p < j + BLOCK ==> res[p] == Fold(Not, srcs, p, 1)
    ensures forall p :: 0 <= p < res.Length && !(j <= p < j + BLOCK) ==> res[p] == old(res[p])
  {
    for k := 0 to 4
      invariant forall p :: j <= p < j + 8 * k ==> res[p] == Fold(Not, srcs, p, 1)
      invariant forall p :: j + 8 * k <= p < j + BLOCK ==> res[p] == At(srcs[0], p)
      invariant forall p :: 0 <= p < res.Length && !(j <= p < j + BLOCK) ==> res[p] == old(res[p])
    {
      CombineWord(Not, srcs[0].value, res, j + 8 * k);
    }
  }

  /** Whole blocks, as far as all sources reach. */
  method FastPath(op: Op, srcs: seq<Option<seq<Byte>>>, res: array<Byte>, minlen: nat) returns (j: nat)
    requires srcs != [] && (op == Not ==> |srcs| == 1) && minlen <= res.Length
    requires forall i :: 0 <= i < |srcs| ==> minlen <= Len(srcs[i])
    modifies res
    ensures j <= minlen && forall p :: 0 <= p < j ==> res[p] == Fold(op, srcs, p, |srcs|)
  {
    var len := minlen;
    for p := 0 to minlen
      invariant forall q :: 0 <= q < p ==> res[q] == At(srcs[0], q)
    {
      res[p] := srcs[0].value[p];
    }
    j := 0;
    while len >= BLOCK
      invariant j + len == minlen && 0 <= j && 0 <= len
      invariant forall p :: 0 <= p < j ==> res[p] == Fold(op, srcs, p, |srcs|)
      invariant forall p :: j <= p < minlen ==> res[p] == At(srcs[0], p)
      decreases len
    {
      if op == Not {
        InvertBlock(srcs, res, j);
      } else {
        var i := 1;
        while i < |srcs|
          invariant 1 <= i <= |srcs|
          invariant forall p :: j <= p < j + BLOCK ==> res[p] == Fold(op, srcs, p, i)
          invariant forall p :: 0 <= p < j ==> res[p] == Fold(op, srcs, p, |srcs|)
          invariant forall p :: j + BLOCK <= p < minlen ==> res[p] == At(srcs[0], p)
        {
          CombineBlock(op, srcs, i, res, j);
          i := i + 1;
        }
      }
      j := j + BLOCK;
      len := len - BLOCK;
    }
  }

  /** One byte, stopping early where nothing can change any more. */
  method TailByte(op: Op, srcs: seq<Option<seq<Byte>>>, j: nat) returns (output: Byte)
    requires srcs != [] && (op == Not ==> |srcs| == 1)
    ensures output == Fold(op, srcs, j, |srcs|)
  {
    output := if Len(srcs[0]) <= j then 0 else srcs[0].value[j];
    if op == Not { output := !output; }
    var i := 1;
    while i < |srcs|
      invariant 1 <= i <= |srcs| && output == Fold(op, srcs, j, i)
    {
      var byte: Byte := if Len(srcs[i]) <= j then 0 else srcs[i].value[j];
      output := Combine(op, output, byte);
      i := i + 1;
      if (op == And && output == 0) || (op == Or && output == 0xff) {
        Settled(op, srcs, j, i, |srcs|);
        break;
      }
    }
  }

  /** The command: None for NOT with several sources, an empty result if all sources are empty. */
  method Bitop(op: Op, srcs: seq<Option<seq<Byte>>>) returns (reply: Option<array<Byte>>)
    requires srcs != []
    ensures reply.None? <==> op == Not && |srcs| != 1
    ensures reply.Some? ==> fresh(reply.value)
    ensures reply.Some? ==> forall i :: 0 <= i < |srcs| ==> Len(srcs[i]) <= reply.value.Length
    ensures reply.Some? ==> exists i :: 0 <= i < |srcs| && Len(srcs[i]) == reply.value.Length
    ensures reply.Some? ==> forall p :: 0 <= p < reply.value.Length ==> reply.value[p] == Fold(op, srcs, p, |srcs|)
  {
    if op == Not && |srcs| != 1 { return None; }
    var minlen, maxlen := Lengths(srcs);
    var res := new Byte[maxlen](_ => 0);
    var j := 0;
    if minlen >= BLOCK && |srcs| <= 16 { j := FastPath(op, srcs, res, minlen); }
    while j < maxlen
      invariant 0 <= j <= maxlen && forall p :: 0 <= p < j ==> res[p] == Fold(op, srcs, p, |srcs|)
    {
      res[j] := TailByte(op, srcs, j);
      j := j + 1;
    }
    reply := Some(res);
  }

  // ---------------------------------------------------------------- the meaning, bit by bit

  predicate SourceBit(srcs: seq<Option<seq<Byte>>>, p: nat, i: nat, b: nat)
    requires i < |srcs| && b < 8
  {
    srcs[i].Some? && p < |srcs[i].value| && BitOf(srcs[i].value[p], b)
  }

  /** A source is followed by zeros. */
  lemma AtBit(srcs: seq<Option<seq<Byte>>>, p: nat, i: nat, b: nat)
    requires i < |srcs| && b < 8
    ensures BitOf(At(srcs[i], p), b) == SourceBit(srcs, p, i, b)
  {
    UniformByte(0, b);
  }

  lemma CombineBits(op: Op, x: Byte, y: Byte, b: nat)
    requires b < 8
    ensures BitOf(Combine(op, x, y), b) ==
      match op
      case And => BitOf(x, b) && BitOf(y, b)
      case Or => BitOf(x, b) || BitOf(y, b)
      case Xor => BitOf(x, b) != BitOf(y, b)
      case Not => BitOf(x, b)
  {
    hide BitOf;
    MaskBits(x, y, b);
  }

  lemma FoldStep(op: Op, srcs: seq<Option<seq<Byte>>>, p: nat, n: nat, b: nat)
    requires 1 < n <= |srcs| && b < 8
    ensures BitOf(Fold(op, srcs, p, n), b) ==
      var before, here := BitOf(Fold(op, srcs, p, n - 1), b), SourceBit(srcs, p, n - 1, b);
      match op case And => before && here case Or => before || here case Xor => before != here case Not => before
  {
    hide BitOf, Combine, At;
    AtBit(srcs, p, n - 1, b);
    CombineBits(op, Fold(op, srcs, p, n - 1), At(srcs[n - 1], p), b);
  }

  /** AND sets the bits that all sources have. */
  lemma {:induction false} AndBits(srcs: seq<Option<seq<Byte>>>, p: nat, n: nat, b: nat)
    requires 0 < n <= |srcs| && b < 8
    ensures BitOf(Fold(And, srcs, p, n), b) <==> forall i :: 0 <= i < n ==> SourceBit(srcs, p, i, b)
  {
    if n == 1 {
      AtBit(srcs, p, 0, b);
      assert SourceBit(srcs, p, 0, b) == BitOf(Fold(And, srcs, p, 1), b);
    } else {
      AndBits(srcs, p, n - 1, b);
      FoldStep(And, srcs, p, n, b);
    }
  }

  /** OR sets the bits that some source has. */
  lemma {:induction false} OrBits(srcs: seq<Option<seq<Byte>>>, p: nat, n: nat, b: nat)
    requires 0 < n <= |srcs| && b < 8
    ensures BitOf(Fold(Or, srcs, p, n), b) <==> exists i :: 0 <= i < n && SourceBit(srcs, p, i, b)
  {
    if n == 1 {
      AtBit(srcs, p, 0, b);
      assert SourceBit(srcs, p, 0, b) == BitOf(Fold(Or, srcs, p, 1), b);
    } else {
      OrBits(srcs, p, n - 1, b);
      FoldStep(Or, srcs, p, n, b);
    }
  }

  /** NOT sets the bits its source does not have, within the length of the source. */
  lemma NotBits(srcs: seq<Option<seq<Byte>>>, p: nat, b: nat)
    requires |srcs| == 1 && b < 8
    ensures BitOf(Fold(Not, srcs, p, 1), b) <==> !SourceBit(srcs, p, 0, b)
  {
    hide BitOf, At;
    AtBit(srcs, p, 0, b);
    MaskBits(0, At(srcs[0], p), b);
  }

  /** Number of sources among the first n with bit b of byte p set. */
  function SetIn(srcs: seq<Option<seq<Byte>>>, p: nat, n: nat, b: nat): nat
    requires n <= |srcs| && b < 8
  {
    if n == 0 then 0 else SetIn(srcs, p, n - 1, b) + if SourceBit(srcs, p, n - 1, b) then 1 else 0
  }

  /** XOR sets the bits that an odd number of sources has. */
  lemma {:induction false} XorBits(srcs: seq<Option<seq<Byte>>>, p: nat, n: nat, b: nat)
    requires 0 < n <= |srcs| && b < 8
    ensures BitOf(Fold(Xor, srcs, p, n), b) <==> SetIn(srcs, p, n, b) % 2 == 1
  {
    if n == 1 {
      AtBit(srcs, p, 0, b);
      assert SetIn(srcs, p, 0, b) == 0;
    } else {
      XorBits(srcs, p, n - 1, b);
      FoldStep(Xor, srcs, p, n, b);
    }
  }
}
