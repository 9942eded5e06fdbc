/** The free-block bitmap: bit b % 8 of byte b / 8 of the bitmap blocks. */
module Bitmap {
  import opened Blocks

  const BPB := BSIZE * 8

  /** (x & (1 << k)) != 0. */
  predicate Bit(x: nat, k: nat) {
    if k == 0 then x % 2 == 1 else Bit(x / 2, k - 1)
  }

  /** x | (1 << k). */
  function Or(x: nat, k: nat): (y: nat) {
    if k == 0 then x / 2 * 2 + 1 else x % 2 + 2 * Or(x / 2, k - 1)
  }

  /** x & ~(1 << k). */
  function AndNot(x: nat, k: nat): (y: nat) {
    if k == 0 then x / 2 * 2 else x % 2 + 2 * AndNot(x / 2, k - 1)
  }

  lemma {:induction false} OrBits(x: nat, k: nat, j: nat)
    ensures Bit(Or(x, k), j) <==> j == k || Bit(x, j)
  {
    if k > 0 && j > 0 {
      OrBits(x / 2, k - 1, j - 1);
      assert Or(x, k) / 2 == Or(x / 2, k - 1);
    }
  }

  lemma {:induction false} AndNotBits(x: nat, k: nat, j: nat)
    ensures Bit(AndNot(x, k), j) <==> j != k && Bit(x, j)
  {
    if k > 0 && j > 0 {
      AndNotBits(x / 2, k - 1, j - 1);
      assert AndNot(x, k) / 2 == AndNot(x / 2, k - 1);
    }
  }

  function TwoTo(n: nat): (p: nat)
    ensures p > 0
  {
    if n == 0 then 1 else 2 * TwoTo(n - 1)
  }

  /** Setting a clear bit adds its value, and clearing a set one takes it away. */
  lemma {:induction false} BitValue(x: nat, k: nat)
    ensures Or(x, k) == if Bit(x, k) then x else x + TwoTo(k)
    ensures Bit(x, k) ==> x >= TwoTo(k)
    ensures AndNot(x, k) == if Bit(x, k) then x - TwoTo(k) else x
  {
    hide TwoTo;
    if k > 0 {
      BitValue(x / 2, k - 1);
      DoubleOf(k);
    } else {
      assert TwoTo(0) == 1 by { OneIs(); }
    }
  }

  lemma OneIs()
    ensures TwoTo(0) == 1
  {
  }

  lemma {:induction false} BitsBound(x: nat, k: nat, n: nat)
    requires k < n && x < TwoTo(n)
    ensures Or(x, k) < TwoTo(n) && AndNot(x, k) < TwoTo(n)
  {
    hide Or, AndNot, TwoTo;
    var p := TwoTo(n - 1);
    DoubleOf(n);
    Halves(x, p);
    Parts(x, k);
    if k > 0 {
      BitsBound(x / 2, k - 1, n - 1);
    }
  }

  lemma DoubleOf(n: nat)
    requires n > 0
    ensures TwoTo(n) == 2 * TwoTo(n - 1)
  {
  }

  lemma Halves(x: nat, p: nat)
    requires x < 2 * p
    ensures x / 2 < p && x / 2 * 2 + 1 < 2 * p && x % 2 <= 1
  {
  }

  lemma Parts(x: nat, k: nat)
    ensures k == 0 ==> Or(x, k) == x / 2 * 2 + 1 && AndNot(x, k) == x / 2 * 2
    ensures k > 0 ==> Or(x, k) == x % 2 + 2 * Or(x / 2, k - 1) && AndNot(x, k) == x % 2 + 2 * AndNot(x / 2, k - 1)
  {
  }

  lemma ByteBound(x: byte, k: nat)
    requires k < 8
    ensures Or(x, k) < 256 && AndNot(x, k) < 256
  {
    assert TwoTo(8) == 256 by { assert TwoTo(4) == 16; }
    BitsBound(x, k, 8);
  }

  /** Bit i of a bitmap block. */
  predicate BlockBit(b: Block, i: nat)
    requires i < BPB
  {
    Bit(b.data[i / 8], i % 8)
  }

  function SetBit(b: Block, i: nat): (r: Block)
    requires i < BPB
  {
    ByteBound(b.data[i / 8], i % 8);
    Block(b.data[i / 8 := Or(b.data[i / 8], i % 8)])
  }

  function ClearBit(b: Block, i: nat): (r: Block)
    requires i < BPB
  {
    ByteBound(b.data[i / 8], i % 8);
    Block(b.data[i / 8 := AndNot(b.data[i / 8], i % 8)])
  }

  lemma SetBitReads(b: Block, i: nat, j: nat)
    requires i < BPB && j < BPB
    ensures BlockBit(SetBit(b, i), j) <==> j == i || BlockBit(b, j)
  {
    OrBits(b.data[i / 8], i % 8, j % 8);
    SameBit(i, j);
  }

  lemma ClearBitReads(b: Block, i: nat, j: nat)
    requires i < BPB && j < BPB
    ensures BlockBit(ClearBit(b, i), j) <==> j != i && BlockBit(b, j)
  {
    AndNotBits(b.data[i / 8], i % 8, j % 8);
    SameBit(i, j);
  }

  lemma SameBit(i: nat, j: nat)
    ensures i == j <==> i / 8 == j / 8 && i % 8 == j % 8
  {
  }
}
