/** Bitmaps of slots: bit `pos` lives in byte `pos / 8` under the mask `1 << (pos & 7)`. */
module Bitmap {

  function Mask(pos: nat): bv8 { (1 as bv8) << (pos % 8) }

  predicate TestBit(bitmap: seq<bv8>, pos: nat)
    requires pos < 8 * |bitmap|
  {
    bitmap[pos / 8] & Mask(pos) != 0
  }

  lemma MaskBits(a: bv8, p: nat, q: nat)
    ensures (a | Mask(p)) & Mask(q) != 0 <==> p % 8 == q % 8 || a & Mask(q) != 0
    ensures (a & !Mask(p)) & Mask(q) != 0 <==> p % 8 != q % 8 && a & Mask(q) != 0
  {
    var i, j := p % 8, q % 8;
    assert i == 0 || i == 1 || i == 2 || i == 3 || i == 4 || i == 5 || i == 6 || i == 7;
    assert j == 0 || j == 1 || j == 2 || j == 3 || j == 4 || j == 5 || j == 6 || j == 7;
  }

  lemma Position(p: nat, q: nat)
    ensures p / 8 == q / 8 && p % 8 == q % 8 <==> p == q
  {}

  /** Sets one bit and no other. */
  function SetBit(bitmap: seq<bv8>, pos: nat): (r: seq<bv8>)
    requires pos < 8 * |bitmap|
    ensures |r| == |bitmap| && forall q :: 0 <= q < 8 * |bitmap| ==> TestBit(r, q) == (q == pos || TestBit(bitmap, q))
  {
    SetBitSpec(bitmap, pos);
    bitmap[pos / 8 := bitmap[pos / 8] | Mask(pos)]
  }

  /** Clears one bit and no other. */
  function ClearBit(bitmap: seq<bv8>, pos: nat): (r: seq<bv8>)
    requires pos < 8 * |bitmap|
    ensures |r| == |bitmap| && forall q :: 0 <= q < 8 * |bitmap| ==> TestBit(r, q) == (q != pos && TestBit(bitmap, q))
  {
    ClearBitSpec(bitmap, pos);
    bitmap[pos / 8 := bitmap[pos / 8] & !Mask(pos)]
  }

  lemma SetBitSpec(bitmap: seq<bv8>, pos: nat)
    requires pos < 8 * |bitmap|
    ensures var r := bitmap[pos / 8 := bitmap[pos / 8] | Mask(pos)];
            forall q :: 0 <= q < 8 * |bitmap| ==> TestBit(r, q) == (q == pos || TestBit(bitmap, q))
  {
    var r := bitmap[pos / 8 := bitmap[pos / 8] | Mask(pos)];
    forall q | 0 <= q < 8 * |bitmap| ensures TestBit(r, q) == (q == pos || TestBit(bitmap, q)) {
      MaskBits(bitmap[pos / 8], pos, q);
      Position(pos, q);
    }
  }

  lemma ClearBitSpec(bitmap: seq<bv8>, pos: nat)
    requires pos < 8 * |bitmap|
    ensures var r := bitmap[pos / 8 := bitmap[pos / 8] & !Mask(pos)];
            forall q :: 0 <= q < 8 * |bitmap| ==> TestBit(r, q) == (q != pos && TestBit(bitmap, q))
  {
    var m := bitmap[pos / 8] & !Mask(pos);
    forall q: nat ensures m & Mask(q) != 0 <==> pos % 8 != q % 8 && bitmap[pos / 8] & Mask(q) != 0 {
      MaskBits(bitmap[pos / 8], pos, q);
    }
    Patch(bitmap, pos, m);
  }

  lemma Patch(bitmap: seq<bv8>, pos: nat, m: bv8)
    requires pos < 8 * |bitmap|
    requires forall q: nat :: m & Mask(q) != 0 <==> pos % 8 != q % 8 && bitmap[pos / 8] & Mask(q) != 0
    ensures forall q :: 0 <= q < 8 * |bitmap| ==> TestBit(bitmap[pos / 8 := m], q) == (q != pos && TestBit(bitmap, q))
  {
    forall q | 0 <= q < 8 * |bitmap| ensures TestBit(bitmap[pos / 8 := m], q) == (q != pos && TestBit(bitmap, q)) {
      Position(pos, q);
    }
  }

  /** Equal bits mean equal bytes, so memcmp compares the sets the bitmaps stand for. */
  lemma SameBits(a: seq<bv8>, b: seq<bv8>)
    requires |a| == |b| && forall q :: 0 <= q < 8 * |a| ==> TestBit(a, q) == TestBit(b, q)
    ensures a == b
  {
    forall i | 0 <= i < |a| ensures a[i] == b[i] {
      assert TestBit(a, 8 * i) == TestBit(b, 8 * i);
      assert TestBit(a, 8 * i + 1) == TestBit(b, 8 * i + 1);
      assert TestBit(a, 8 * i + 2) == TestBit(b, 8 * i + 2);
      assert TestBit(a, 8 * i + 3) == TestBit(b, 8 * i + 3);
      assert TestBit(a, 8 * i + 4) == TestBit(b, 8 * i + 4);
      assert TestBit(a, 8 * i + 5) == TestBit(b, 8 * i + 5);
      assert TestBit(a, 8 * i + 6) == TestBit(b, 8 * i + 6);
      assert TestBit(a, 8 * i + 7) == TestBit(b, 8 * i + 7);
    }
  }
}
