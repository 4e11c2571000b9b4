/** An empty volume: the bitmap marks the metadata blocks and every inode is free. It satisfies
    what the file system operations keep, so these invariants hold from the start. */
module Format {
  import opened Bytes
  import opened Sequences
  import opened Bitmap
  import opened Inodes
  import opened Volume
  import opened Transfers

  function FreeInode(): Inode {
    Inode(0, 0, 0, 0, 0, Copies<word>(NDIRECT + 1, 0))
  }

  /** The blocks once the first n are marked in use. */
  function Marked(sb: Super, n: nat): (r: seq<Block>)
    requires SuperOk(sb) && n <= sb.size
    ensures |r| == sb.size
  {
    if n == 0 then Copies(sb.size, ZeroBlock())
    else
      BitInRange(sb, n - 1);
      Mark(Marked(sb, n - 1), sb.bmapstart, n - 1, true)
  }

  /** What mkfs leaves for a volume without files. */
  function Formatted(sb: Super): Vol
    requires SuperOk(sb)
  {
    Vol(Marked(sb, DataStart(sb)), Copies(sb.ninodes, FreeInode()))
  }

  lemma {:induction false} BitOfZero(k: nat)
    ensures !Bit(0, k)
  {
    if k > 0 {
      BitOfZero(k - 1);
    }
  }

  lemma {:induction false} MarkedUse(sb: Super, n: nat, c: nat)
    requires SuperOk(sb) && n <= sb.size && c < sb.size
    ensures BitmapBlock(sb.bmapstart, c) < sb.size && (Used(Marked(sb, n), sb.bmapstart, c) <==> c < n)
  {
    hide Bit, Mark;
    BitInRange(sb, c);
    if n == 0 {
      BitOfZero(c % 8);
    } else {
      MarkedUse(sb, n - 1, c);
      BitInRange(sb, n - 1);
      UsedAfterMark(Marked(sb, n - 1), sb.bmapstart, n - 1, true, c);
    }
  }

  lemma {:induction false} MarkedElsewhere(sb: Super, n: nat, x: nat)
    requires SuperOk(sb) && n <= sb.size && x < sb.bmapstart
    ensures Marked(sb, n)[x] == ZeroBlock()
  {
    hide Mark, ZeroBlock;
    if n > 0 {
      MarkedElsewhere(sb, n - 1, x);
      BitInRange(sb, n - 1);
      MarkElsewhere(Marked(sb, n - 1), sb.bmapstart, n - 1, true, x);
    }
  }

  /** A zeroed inode block holds free inodes. */
  lemma LoadZero(k: nat)
    requires k < IPB
    ensures Load(ZeroBlock(), k) == FreeInode()
  {
    hide Word, ZeroBlock, Words;
    var w := Words(ZeroBlock(), IWORDS * k, IWORDS);
    forall i | 0 <= i < IWORDS
      ensures w[i] == 0
    {
      WordOfZero(IWORDS * k + i);
    }
    assert w[3..] == Copies<word>(NDIRECT + 1, 0);
  }

  lemma FormattedInRange(sb: Super)
    requires SuperOk(sb)
    ensures InRange(sb, Formatted(sb))
    ensures forall c: nat :: c < sb.size ==> (InUse(sb, Formatted(sb), c) <==> c < DataStart(sb))
  {
    hide Marked, Used;
    var v := Formatted(sb);
    forall c: nat | c < sb.size
      ensures InUse(sb, v, c) <==> c < DataStart(sb)
    {
      MarkedUse(sb, DataStart(sb), c);
    }
  }

  /** The empty volume owns no block, has no holes, and its inodes are on disk. */
  lemma FormattedIsGood(sb: Super)
    requires SuperOk(sb)
    ensures Valid(sb, Formatted(sb), map[], {}, {}) && Solid(Formatted(sb)) && Synced(sb, Formatted(sb))
  {
    hide Marked, InUse, Load;
    var v := Formatted(sb);
    FormattedInRange(sb);
    forall s | IsSlot(v, s)
      ensures At(v, s) == 0
    {
    }
    forall j: nat | j < |v.inodes|
      ensures OnDisk(sb, v, j)
    {
      InodeBlockInRange(sb, j);
      MarkedElsewhere(sb, DataStart(sb), InodeBlock(sb, j));
      LoadZero(j % IPB);
    }
  }
}
