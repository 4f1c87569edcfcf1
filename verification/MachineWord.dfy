/** Powers of two, and machine words of 64 bits as the sequence of their bits, least significant first. */
module MachineWord {
  function Flag(b: bool): nat { if b then 1 else 0 }

  function Pow2(n: nat): (p: nat)
    ensures p > 0
  {
    if n == 0 then 1 else 2 * Pow2(n - 1)
  }

  lemma {:induction false} Pow2Add(a: nat, b: nat)
    ensures Pow2(a + b) == Pow2(a) * Pow2(b)
  {
    if a > 0 { Pow2Add(a - 1, b); }
  }

  // ---------------------------------------------------------------- the number in a word

  type Word = seq<bool>

  function Value(w: Word): nat {
    if w == [] then 0 else Flag(w[0]) + 2 * Value(w[1..])
  }

  /** The low n bits of a number. */
  function ToWord(v: nat, n: nat): (w: Word)
    ensures |w| == n
  {
    if n == 0 then [] else [v % 2 == 1] + ToWord(v / 2, n - 1)
  }

  lemma {:induction false} ValueBound(w: Word)
    ensures Value(w) < Pow2(|w|)
  {
    if w != [] { ValueBound(w[1..]); }
  }

  lemma {:induction false} ValueConcat(a: Word, b: Word)
    ensures Value(a + b) == Value(a) + Pow2(|a|) * Value(b)
  {
    if a == [] {
      assert a + b == b;
    } else {
      assert (a + b)[0] == a[0] && (a + b)[1..] == a[1..] + b;
      ValueConcat(a[1..], b);
    }
  }

  lemma {:induction false} ValueOfWord(v: nat, n: nat)
    requires v < Pow2(n)
    ensures Value(ToWord(v, n)) == v
  {
    if n > 0 {
      ValueOfWord(v / 2, n - 1);
      assert ToWord(v, n)[1..] == ToWord(v / 2, n - 1);
    }
  }

  function Fill(b: bool, n: nat): (w: Word)
    ensures |w| == n
  {
    seq(n, _ => b)
  }

  lemma {:induction false} FillValue(b: bool, n: nat)
    ensures Value(Fill(b, n)) == if b then Pow2(n) - 1 else 0
  {
    if n > 0 {
      assert Fill(b, n)[1..] == Fill(b, n - 1);
      FillValue(b, n - 1);
    }
  }

  // ---------------------------------------------------------------- operators

  function AndW(a: Word, b: Word): (w: Word)
    requires |a| == |b|
    ensures |w| == |a|
  {
    seq(|a|, k requires 0 <= k < |a| => a[k] && b[k])
  }

  function OrW(a: Word, b: Word): (w: Word)
    requires |a| == |b|
    ensures |w| == |a|
  {
    seq(|a|, k requires 0 <= k < |a| => a[k] || b[k])
  }

  function NotW(a: Word): (w: Word)
    ensures |w| == |a|
  {
    seq(|a|, k requires 0 <= k < |a| => !a[k])
  }

  /** a << n */
  function ShiftLeft(a: Word, n: nat): (w: Word)
    ensures |w| == |a|
  {
    seq(|a|, k requires 0 <= k < |a| => k >= n && a[k - n])
  }

  /** -1 << n: all bits from n on. */
  function HighMask(size: nat, n: nat): (w: Word)
    ensures |w| == size
  {
    ShiftLeft(Fill(true, size), n)
  }

  /** Clearing the high bits keeps the value modulo the width. */
  lemma ClearHigh(w: Word, n: nat)
    requires n <= |w|
    ensures Value(AndW(w, NotW(HighMask(|w|, n)))) == Value(w[..n])
  {
    assert AndW(w, NotW(HighMask(|w|, n))) == w[..n] + Fill(false, |w| - n);
    ValueConcat(w[..n], Fill(false, |w| - n));
    FillValue(false, |w| - n);
  }

  /** Setting the high bits. */
  lemma SetHigh(w: Word, n: nat)
    requires n <= |w|
    ensures Value(OrW(w, HighMask(|w|, n))) == Value(w[..n]) + Pow2(|w|) - Pow2(n)
  {
    hide Value, Pow2;
    assert OrW(w, HighMask(|w|, n)) == w[..n] + Fill(true, |w| - n);
    FilledValue(w[..n], |w| - n);
  }

  lemma FilledValue(a: Word, m: nat)
    ensures Value(a + Fill(true, m)) == Value(a) + Pow2(|a| + m) - Pow2(|a|)
  {
    hide Fill, Value, Pow2;
    ValueConcat(a, Fill(true, m));
    FillValue(true, m);
    Pow2Add(|a|, m);
    Distributes(Pow2(|a|), Pow2(m));
  }

  lemma Distributes(p: nat, q: nat)
    ensures p * (q - 1) == p * q - p
  {}

  /** 1 << n selects one bit. */
  lemma SingleBit(w: Word, n: nat)
    requires n < |w|
    ensures Value(AndW(w, ShiftLeft(ToWord(1, |w|), n))) != 0 <==> w[n]
  {
    hide ToWord, Value, AndW, ShiftLeft;
    OneWord(|w|);
    SelectedBit(w, n);
    PlaceValue(n, w[n], |w| - n - 1);
  }

  lemma SelectedBit(w: Word, n: nat)
    requires n < |w|
    ensures AndW(w, ShiftLeft([true] + Fill(false, |w| - 1), n)) == Fill(false, n) + ([w[n]] + Fill(false, |w| - n - 1))
  {
    var x, y := AndW(w, ShiftLeft([true] + Fill(false, |w| - 1), n)), Fill(false, n)
        + ([w[n]] + Fill(false, |w| - n - 1));
    forall k | 0 <= k < |w| ensures x[k] == y[k] {}
  }

  lemma PlaceValue(n: nat, b: bool, m: nat)
    ensures Value(Fill(false, n) + ([b] + Fill(false, m))) == (if b then Pow2(n) else 0)
  {
    hide Fill, Pow2;
    var rest := [b] + Fill(false, m);
    assert rest[1..] == Fill(false, m);
    FillValue(false, m);
    FillValue(false, n);
    assert Value(rest) == Flag(b);
    ValueConcat(Fill(false, n), rest);
    Times(Pow2(n), b);
  }

  lemma Times(p: nat, b: bool)
    ensures p * Flag(b) == if b then p else 0
  {}

  lemma OneWord(n: nat)
    ensures n > 0 ==> ToWord(1, n) == [true] + Fill(false, n - 1)
  {
    if n > 0 { ZeroWord(n - 1); }
  }

  lemma {:induction false} ZeroWord(n: nat)
    ensures ToWord(0, n) == Fill(false, n)
  {
    if n > 0 {
      ZeroWord(n - 1);
      assert Fill(false, n) == [false] + Fill(false, n - 1);
    }
  }

  /** The top bit says whether the value reaches the upper half. */
  lemma TopBit(w: Word)
    requires w != []
    ensures w[|w| - 1] <==> Value(w) >= Pow2(|w| - 1)
  {
    var n := |w| - 1;
    assert w == w[..n] + [w[n]];
    ValueConcat(w[..n], [w[n]]);
    ValueBound(w[..n]);
    assert [w[n]][1..] == [];
    assert Value([w[n]]) == Flag(w[n]);
  }
}
