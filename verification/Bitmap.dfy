/** The free-block bitmap (kernel/fs.c, balloc and bfree): one bit per disk block, packed into
    bytes, BPB bits to a bitmap block. */
module Bitmap {
  import opened Bytes

  const BPB: nat := BSIZE * 8

  /** Bit k of x, that is (x & (1 << k)) != 0. */
  predicate Bit(x: nat, k: nat)
    decreases k
  {
    if k == 0 then x % 2 == 1 else Bit(x / 2, k - 1)
  }

  /** x | (1 << k) or x & ~(1 << k). */
  function PutBit(x: nat, k: nat, v: bool): nat
    decreases k
  {
    if k == 0 then 2 * (x / 2) + (if v then 1 else 0) else 2 * PutBit(x / 2, k - 1, v) + x % 2
  }

  function Pow2(k: nat): nat {
    if k == 0 then 1 else 2 * Pow2(k - 1)
  }

  lemma {:induction false} BitPutBit(x: nat, k: nat, v: bool, j: nat)
    ensures Bit(PutBit(x, k, v), j) == if j == k then v else Bit(x, j)
    decreases k
  {
    if k > 0 {
      var y := 2 * PutBit(x / 2, k - 1, v) + x % 2;
      assert y / 2 == PutBit(x / 2, k - 1, v) && y % 2 == x % 2;
      if j > 0 {
        BitPutBit(x / 2, k - 1, v, j - 1);
      }
    } else if j > 0 {
      assert (2 * (x / 2) + (if v then 1 else 0)) / 2 == x / 2;
    }
  }

  lemma {:induction false} PutBitBound(x: nat, k: nat, v: bool, n: nat)
    requires x < Pow2(n) && k < n
    ensures PutBit(x, k, v) < Pow2(n)
    decreases k
  {
    if k > 0 {
      PutBitBound(x / 2, k - 1, v, n - 1);
    }
  }

  lemma ByteBound()
    ensures Pow2(8) == 256
  {
    assert Pow2(4) == 16;
  }

  function PutBitInByte(x: byte, k: nat, v: bool): byte
    requires k < 8
  {
    ByteBound();
    PutBitBound(x, k, v, 8);
    PutBit(x, k, v)
  }

  /** The bitmap block that holds the bit of block b (BBLOCK). */
  function BitmapBlock(start: nat, b: nat): nat {
    start + b / BPB
  }

  /** Block b is marked in use. */
  predicate Used(d: seq<Block>, start: nat, b: nat)
    requires BitmapBlock(start, b) < |d|
  {
    Bit(d[BitmapBlock(start, b)][b % BPB / 8], b % 8)
  }

  /** Set or clear the bit of block b. */
  function Mark(d: seq<Block>, start: nat, b: nat, v: bool): (r: seq<Block>)
    requires BitmapBlock(start, b) < |d|
    ensures |r| == |d|
  {
    var bp := d[BitmapBlock(start, b)];
    var k := b % BPB / 8;
    d[BitmapBlock(start, b) := bp[k := PutBitInByte(bp[k], b % 8, v)]]
  }

  /** A block number is its bitmap block, byte and bit. */
  lemma BitPosition(b: nat)
    ensures b == BPB * (b / BPB) + 8 * (b % BPB / 8) + b % 8
  {
    var q, r := b / BPB, b % BPB;
    var k, m := r / 8, r % 8;
    LowBits(b, BSIZE * q + k, m);
  }

  lemma LowBits(b: nat, q: nat, m: nat)
    requires b == 8 * q + m && m < 8
    ensures b % 8 == m
  {
  }

  lemma DifferentBits(b: nat, c: nat)
    requires b / BPB == c / BPB && b % BPB / 8 == c % BPB / 8 && b % 8 == c % 8
    ensures b == c
  {
    BitPosition(b);
    BitPosition(c);
  }

  /** Marking a block changes that block's bit and no other. */
  lemma UsedAfterMark(d: seq<Block>, start: nat, b: nat, v: bool, c: nat)
    requires BitmapBlock(start, b) < |d| && BitmapBlock(start, c) < |d|
    ensures Used(Mark(d, start, b, v), start, c) == if c == b then v else Used(d, start, c)
  {
    var bp := d[BitmapBlock(start, b)];
    var k := b % BPB / 8;
    if b / BPB == c / BPB && c % BPB / 8 == k {
      BitPutBit(bp[k], b % 8, v, c % 8);
      if b % 8 == c % 8 {
        DifferentBits(b, c);
      }
    }
  }

  /** Marking touches no block but the one bitmap block. */
  lemma MarkElsewhere(d: seq<Block>, start: nat, b: nat, v: bool, x: nat)
    requires BitmapBlock(start, b) < |d| && x < |d| && x != BitmapBlock(start, b)
    ensures Mark(d, start, b, v)[x] == d[x]
  {
  }
}
