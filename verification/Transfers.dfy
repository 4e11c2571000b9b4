/** What readi and writei (kernel/fs.c) do to files: bytes are spliced into one file and no other
    file is affected. */
module Transfers {
  import opened Bytes
  import opened Params
  import opened Bitmap
  import opened Inodes
  import opened Volume
  import opened Files

  /** c with src stored over it from off on, extended if it is too short. */
  function Splice(c: seq<byte>, off: nat, src: seq<byte>): seq<byte>
    requires off <= |c|
  {
    c[..off] + src + if off + |src| < |c| then c[off + |src|..] else []
  }

  lemma SpliceTwice(c: seq<byte>, off: nat, src: seq<byte>, more: seq<byte>)
    requires off <= |c|
    ensures off + |src| <= |Splice(c, off, src)|
    ensures Splice(Splice(c, off, src), off + |src|, more) == Splice(c, off, src + more)
  {
    var d := Splice(c, off, src);
    assert d[..off + |src|] == c[..off] + src;
    if off + |src| + |more| < |c| {
      assert d[off + |src| + |more|..] == c[off + |src| + |more|..];
    }
    assert Splice(d, off + |src|, more) == Splice(c, off, src + more);
  }

  lemma SpliceNothing(c: seq<byte>, off: nat)
    requires off <= |c|
    ensures Splice(c, off, []) == c
  {
  }

  function Patch(b: Block, o: nat, src: seq<byte>): (r: Block)
    requires o + |src| <= BSIZE
    ensures forall p :: 0 <= p < BSIZE ==> r[p] == if o <= p < o + |src| then src[p - o] else b[p]
  {
    b[..o] + src + b[o + |src|..]
  }

  /** The bytes moved in one turn: what is left, but not beyond the block's end. */
  function Chunk(off: nat, left: nat): nat {
    if left < BSIZE - off % BSIZE then left else BSIZE - off % BSIZE
  }

  ghost predicate Solid(v: Vol) {
    Indexable(v) && forall i :: 0 <= i < |v.inodes| ==> NoHoles(v, i)
  }

  /** Every inode but i has the same fields and the same contents. */
  ghost predicate OthersKept(v: Vol, w: Vol, i: nat)
    requires Solid(v) && Solid(w)
  {
    && |w.inodes| == |v.inodes|
    && forall j :: 0 <= j < |v.inodes| && j != i ==> w.inodes[j] == v.inodes[j] && Contents(w, j) == Contents(v, j)
  }

  ghost predicate InodesKept(v: Vol, w: Vol, i: nat) {
    && i < |v.inodes| == |w.inodes|
    && w.inodes == v.inodes[i := v.inodes[i].(addrs := w.inodes[i].addrs)]
  }

  ghost predicate BytesKept(v: Vol, w: Vol, i: nat, lo: nat, hi: nat)
    requires Indexable(v) && Indexable(w) && |v.inodes| == |w.inodes|
  {
    forall j: nat, p: nat :: j < |v.inodes| && Stored(v, j, p) ==>
      Stored(w, j, p) && ((j == i && lo <= p < hi) || ByteAt(w, j, p) == ByteAt(v, j, p))
  }

  ghost predicate BytesWritten(w: Vol, i: nat, off: nat, src: seq<byte>)
    requires Indexable(w) && i < |w.inodes|
  {
    forall p: nat :: off <= p < off + |src| ==> Stored(w, i, p) && ByteAt(w, i, p) == src[p - off]
  }

  /** What writei has done to v after storing src in file i from off on. */
  ghost predicate Wrote(sb: Super, v: Vol, w: Vol, i: nat, off: nat, src: seq<byte>) {
    && Indexable(v) && Indexable(w) && InodesKept(v, w, i) && SameMeta(sb, v, w)
    && BytesKept(v, w, i, off, off + |src|) && BytesWritten(w, i, off, src)
  }

  lemma WroteNothing(sb: Super, v: Vol, owner: map<nat, Slot>, i: nat, off: nat)
    requires Valid(sb, v, owner, {}, {}) && i < |v.inodes|
    ensures Wrote(sb, v, v, i, off, [])
  {
  }

  lemma WroteMaps(sb: Super, v: Vol, w: Vol, x: Vol, i: nat, off: nat, src: seq<byte>)
    requires Wrote(sb, v, w, i, off, src) && Maps(sb, w, x, i)
    ensures Wrote(sb, v, x, i, off, src)
  {
    hide Stored, ByteAt, Keeps;
    KeepsSizes(w, x);
    forall j: nat, p: nat | j < |w.inodes| && Stored(w, j, p)
      ensures Stored(x, j, p) && ByteAt(x, j, p) == ByteAt(w, j, p)
    {
      KeepsByte(w, x, j, p);
    }
  }

  lemma WroteChunk(sb: Super, v: Vol, w: Vol, owner: map<nat, Slot>, i: nat, off: nat, src: seq<byte>, more: seq<byte>)
    requires Wrote(sb, v, w, i, off, src) && Valid(sb, w, owner, {}, {})
    requires off + |src| < MAXBYTES && BlockAt(w, i, (off + |src|) / BSIZE) != 0
    requires (off + |src|) % BSIZE + |more| <= BSIZE
    ensures var b := BlockAt(w, i, (off + |src|) / BSIZE);
            && b < |w.data|
            && var x := Overwrite(w, b, Patch(w.data[b], (off + |src|) % BSIZE, more));
            && Valid(sb, x, owner, {}, {}) && Wrote(sb, v, x, i, off, src + more)
  {
    hide Valid, Stored, ByteAt, BlockAt, Patch;
    var end := off + |src|;
    var bn := end / BSIZE;
    var b := BlockAt(w, i, bn);
    StoredOwned(sb, w, owner, {}, i, bn);
    RangeOf(sb, w, owner, {});
    var block := Patch(w.data[b], end % BSIZE, more);
    var x := Overwrite(w, b, block);
    forall j: nat, p: nat | j < |w.inodes| && Stored(w, j, p)
      ensures Stored(x, j, p)
      ensures ByteAt(x, j, p) == if j == i && end <= p < end + |more| then more[p - end] else ByteAt(w, j, p)
    {
      WroteByte(sb, w, owner, i, end, more, j, p);
    }
    forall p: nat | end <= p < end + |more|
      ensures Stored(w, i, p)
    {
      SameBlock(w, i, end, p);
    }
    ChunkValid(sb, w, owner, i, bn, block);
  }

  lemma ChunkValid(sb: Super, w: Vol, owner: map<nat, Slot>, i: nat, bn: nat, block: Block)
    requires Valid(sb, w, owner, {}, {}) && i < |w.inodes| && bn < MAXFILE && BlockAt(w, i, bn) != 0
    ensures BlockAt(w, i, bn) < |w.data|
    ensures var x := Overwrite(w, BlockAt(w, i, bn), block); Valid(sb, x, owner, {}, {}) && SameMeta(sb, w, x)
  {
    hide Linked, Owned, Accounted, InUse, At;
    StoredOwned(sb, w, owner, {}, i, bn);
    OverwriteValid(sb, w, owner, {}, BlockAt(w, i, bn), block);
  }

  lemma SameBlock(w: Vol, i: nat, p: nat, q: nat)
    requires Indexable(w) && i < |w.inodes| && p <= q && p % BSIZE + (q - p) < BSIZE
    requires p < MAXBYTES && 0 < BlockAt(w, i, p / BSIZE) < |w.data|
    ensures Stored(w, i, q) && q / BSIZE == p / BSIZE && q % BSIZE == p % BSIZE + (q - p)
  {
    hide At;
    assert q / BSIZE == p / BSIZE;
  }

  /** One byte before and after a chunk is stored at end. */
  lemma WroteByte(sb: Super, w: Vol, owner: map<nat, Slot>, i: nat, end: nat, more: seq<byte>, j: nat, p: nat)
    requires Valid(sb, w, owner, {}, {}) && i < |w.inodes| && end < MAXBYTES
    requires 0 < BlockAt(w, i, end / BSIZE) < |w.data|
    requires end % BSIZE + |more| <= BSIZE && j < |w.inodes| && Stored(w, j, p)
    ensures var b := BlockAt(w, i, end / BSIZE);
            var x := Overwrite(w, b, Patch(w.data[b], end % BSIZE, more));
            && Stored(x, j, p)
            && ByteAt(x, j, p) == if j == i && end <= p < end + |more| then more[p - end] else ByteAt(w, j, p)
  {
    hide Valid, Patch, At;
    RangeOf(sb, w, owner, {});
    var b := BlockAt(w, i, end / BSIZE);
    var block := Patch(w.data[b], end % BSIZE, more);
    OverwriteByte(sb, w, owner, i, end / BSIZE, block, j, p);
    RangeOf(sb, Overwrite(w, b, block), owner, {});
    if j == i && p / BSIZE == end / BSIZE {
      assert p - end == p % BSIZE - end % BSIZE;
    } else if j == i && end <= p < end + |more| {
      SameBlock(w, i, end, p);
    }
  }

  /** Once the size is brought up to date the file's contents are spliced. */
  lemma WroteDone(sb: Super, v: Vol, w: Vol, i: nat, off: nat, src: seq<byte>, size: word)
    requires Solid(v) && Wrote(sb, v, w, i, off, src) && off <= v.inodes[i].size
    requires size == if off + |src| > v.inodes[i].size then off + |src| else v.inodes[i].size
    ensures var x := w.(inodes := w.inodes[i := w.inodes[i].(size := size)]);
            && Solid(x) && OthersKept(v, x, i) && Contents(x, i) == Splice(Contents(v, i), off, src)
  {
    hide Stored, ByteAt, At;
    var x := w.(inodes := w.inodes[i := w.inodes[i].(size := size)]);
    forall j: nat, p: nat | j < |w.inodes| && Stored(w, j, p)
      ensures Stored(x, j, p) && ByteAt(x, j, p) == ByteAt(w, j, p)
    {
      ResizedByte(w, i, size, j, p);
    }
    forall j: nat, p: nat | j < |x.inodes| && p < x.inodes[j].size
      ensures Stored(x, j, p)
    {
      if p < v.inodes[j].size {
        assert NoHoles(v, j) && Stored(v, j, p);
      }
      assert Stored(w, j, p);
    }
    var c := Splice(Contents(v, i), off, src);
    assert |Contents(x, i)| == |c|;
    forall j: nat | j < |v.inodes| && j != i
      ensures Contents(x, j) == Contents(v, j)
    {
      assert NoHoles(v, j);
      assert forall p: nat :: p < v.inodes[j].size ==> Stored(v, j, p) && Stored(w, j, p) && Stored(x, j, p);
    }
  }

  lemma ResizedByte(w: Vol, i: nat, size: word, j: nat, p: nat)
    requires Indexable(w) && i < |w.inodes| && j < |w.inodes| && Stored(w, j, p)
    ensures var x := w.(inodes := w.inodes[i := w.inodes[i].(size := size)]);
            Indexable(x) && Stored(x, j, p) && ByteAt(x, j, p) == ByteAt(w, j, p)
  {
  }

  // inodes on disk

  /** The inode block of i holds what the kernel has in memory. */
  predicate OnDisk(sb: Super, v: Vol, i: nat)
    requires InRange(sb, v) && i < |v.inodes|
  {
    InodeBlockInRange(sb, i);
    Load(v.data[InodeBlock(sb, i)], i % IPB) == v.inodes[i]
  }

  ghost predicate SyncedBut(sb: Super, v: Vol, i: nat)
    requires InRange(sb, v)
  {
    forall j: nat :: j < |v.inodes| && j != i ==> OnDisk(sb, v, j)
  }

  ghost predicate Synced(sb: Super, v: Vol)
    requires InRange(sb, v)
  {
    forall j: nat :: j < |v.inodes| ==> OnDisk(sb, v, j)
  }

  lemma MetaSynced(sb: Super, v: Vol, w: Vol, i: nat)
    requires InRange(sb, v) && InRange(sb, w) && SameMeta(sb, v, w) && SyncedBut(sb, v, i)
    requires forall j :: 0 <= j < |v.inodes| && j != i ==> w.inodes[j] == v.inodes[j]
    ensures SyncedBut(sb, w, i)
  {
    forall j: nat | j < |w.inodes| && j != i
      ensures OnDisk(sb, w, j)
    {
      assert OnDisk(sb, v, j);
      InodeBlockInRange(sb, j);
    }
  }

  /** iupdate. */
  function Update(sb: Super, v: Vol, i: nat): Vol
    requires InRange(sb, v) && i < |v.inodes|
  {
    InodeBlockInRange(sb, i);
    Overwrite(v, InodeBlock(sb, i), Save(v.data[InodeBlock(sb, i)], i % IPB, v.inodes[i]))
  }

  lemma UpdateSyncs(sb: Super, v: Vol, i: nat)
    requires InRange(sb, v) && i < |v.inodes| && SyncedBut(sb, v, i)
    ensures InRange(sb, Update(sb, v, i)) && Synced(sb, Update(sb, v, i))
  {
    hide Load, Save;
    InodeBlockInRange(sb, i);
    var w := Update(sb, v, i);
    forall j: nat | j < |w.inodes|
      ensures OnDisk(sb, w, j)
    {
      InodeBlockInRange(sb, j);
      LoadSave(v.data[InodeBlock(sb, i)], i % IPB, v.inodes[i], j % IPB);
      if j != i {
        assert OnDisk(sb, v, j);
        assert j / IPB == i / IPB ==> j % IPB != i % IPB;
      }
    }
  }

  /** Writing an inode back touches no block of any file. */
  lemma UpdateKeeps(sb: Super, v: Vol, owner: map<nat, Slot>, i: nat)
    requires Valid(sb, v, owner, {}, {}) && i < |v.inodes|
    ensures Valid(sb, Update(sb, v, i), owner, {}, {}) && Keeps(v, Update(sb, v, i))
  {
    hide Linked, Owned, Accounted, InUse, At, Save;
    InodeBlockInRange(sb, i);
    var w := Update(sb, v, i);
    OverwriteValid(sb, v, owner, {}, InodeBlock(sb, i), w.data[InodeBlock(sb, i)]);
    forall j, bn | 0 <= j < |v.inodes| && 0 <= bn < MAXFILE && 0 < BlockAt(v, j, bn) < |v.data|
      ensures BlockAt(w, j, bn) == BlockAt(v, j, bn) && w.data[BlockAt(v, j, bn)] == v.data[BlockAt(v, j, bn)]
    {
      assert IsSlot(v, BlockSlot(j, bn));
      StoredOwned(sb, v, owner, {}, j, bn);
    }
  }

  /** Volumes with the same inodes and stored blocks hold the same files. */
  lemma KeepsFiles(v: Vol, w: Vol)
    requires Solid(v) && Keeps(v, w) && w.inodes == v.inodes
    ensures Solid(w) && forall j :: 0 <= j < |v.inodes| ==> Contents(w, j) == Contents(v, j)
  {
    hide Contents, NoHoles, Keeps;
    KeepsSizes(v, w);
    forall j | 0 <= j < |v.inodes|
      ensures NoHoles(w, j) && Contents(w, j) == Contents(v, j)
    {
      KeepsContents(v, w, j);
    }
  }

  // how many blocks a write can touch

  /** The number of blocks that hold the bytes off .. off + n. */
  function Blocks(off: nat, n: nat): nat {
    if n == 0 then 0 else (off + n - 1) / BSIZE - off / BSIZE + 1
  }

  /** The blocks of a write and their bitmap blocks, except that the bitmap is not needed for a
      first block that is already there; the indirect block, its bitmap block and the inode. */
  function Budget(off: nat, n: nat): nat {
    2 * Blocks(off, n) - (if n > 0 && off % BSIZE != 0 then 1 else 0) + 3
  }

  /** If a write starts inside a block, that block is there already. */
  lemma FirstExists(v: Vol, i: nat, off: nat)
    requires Solid(v) && i < |v.inodes| && off <= v.inodes[i].size && off % BSIZE != 0 && off < MAXBYTES
    ensures BlockAt(v, i, off / BSIZE) != 0
  {
    assert NoHoles(v, i);
    assert Stored(v, i, off - 1);
    assert (off - 1) / BSIZE == off / BSIZE;
  }

  /** Blocks and bitmap blocks touched by the first k blocks of a write. */
  function Touches(off: nat, k: nat): int {
    2 * k - if k > 0 && off % BSIZE != 0 then 1 else 0
  }

  /** The k-th turn of a write or read starts in the k-th block. */
  predicate Progress(off: nat, tot: nat, k: nat) {
    (off + tot) / BSIZE == off / BSIZE + k && (k > 0 ==> (off + tot) % BSIZE == 0) && (k == 0 ==> tot == 0)
  }

  /** A transfer that stops early stops before it starts or at a block boundary. */
  predicate AtBoundary(off: nat, tot: nat) {
    tot == 0 || (off + tot) % BSIZE == 0
  }

  lemma BlockIndex(off: nat, tot: nat, n: nat, k: nat)
    requires Progress(off, tot, k) && tot < n && off + n <= MAXBYTES
    ensures k < Blocks(off, n) && (off + tot) / BSIZE < MAXFILE
  {
    assert (off + tot) / BSIZE <= (off + n - 1) / BSIZE;
  }

  /** A turn that does not finish the transfer ends at a block boundary. */
  lemma ChunkEnd(off: nat, tot: nat, n: nat, k: nat)
    requires k > 0 && Progress(off, tot, k - 1) && tot < n
    ensures var m := Chunk(off + tot, n - tot);
            && 0 < m <= n - tot && (off + tot) % BSIZE + m <= BSIZE
            && (tot + m < n ==> Progress(off, tot + m, k))
  {
    var m := Chunk(off + tot, n - tot);
    if tot + m < n {
      NextBlock(off + tot);
    }
  }

  lemma NextBlock(p: nat)
    ensures (p + (BSIZE - p % BSIZE)) / BSIZE == p / BSIZE + 1 && (p + (BSIZE - p % BSIZE)) % BSIZE == 0
  {
    assert p + (BSIZE - p % BSIZE) == BSIZE * (p / BSIZE + 1);
  }

  lemma WroteSizes(sb: Super, v: Vol, w: Vol, i: nat, off: nat, src: seq<byte>)
    requires Wrote(sb, v, w, i, off, src)
    ensures i < |w.inodes| == |v.inodes|
  {
  }

  /** The disk has no free block. */
  ghost predicate Filled(sb: Super, v: Vol)
    requires InRange(sb, v)
  {
    forall c: nat :: c < sb.size ==> InUse(sb, v, c)
  }

  lemma StillFilled(sb: Super, w: Vol, x: Vol, y: Vol)
    requires InRange(sb, w) && InRange(sb, x) && InRange(sb, y) && Filled(sb, w)
    requires x.data == w.data && SameBits(sb, x, y)
    ensures Filled(sb, y)
  {
    hide InUse;
    SameUse(sb, w, x);
  }

  /** writei and itrunc change the size and the block numbers of an inode only. */
  predicate SameKind(ip: Inode, jp: Inode) {
    jp == ip.(size := jp.size, addrs := jp.addrs)
  }

  /** The file reaches at least to end. */
  function Resized(w: Vol, i: nat, end: word): Vol
    requires i < |w.inodes|
  {
    if end > w.inodes[i].size then w.(inodes := w.inodes[i := w.inodes[i].(size := end)]) else w
  }

  /** File i is spliced, its kind and links stay, and so does every other file. */
  ghost predicate Spliced(v: Vol, w: Vol, i: nat, off: nat, src: seq<byte>)
    requires Solid(v) && Solid(w) && i < |v.inodes|
  {
    && OthersKept(v, w, i) && SameKind(v.inodes[i], w.inodes[i])
    && off <= v.inodes[i].size && Contents(w, i) == Splice(Contents(v, i), off, src)
  }

  /** After writei's loop, bringing the size up to date splices the contents. */
  lemma WriteResize(sb: Super, v: Vol, w: Vol, owner: map<nat, Slot>, i: nat, off: nat, src: seq<byte>)
    requires InRange(sb, v) && Solid(v) && Synced(sb, v) && Wrote(sb, v, w, i, off, src) && Valid(sb, w, owner, {}, {})
    requires i < |v.inodes| && off <= v.inodes[i].size && off + |src| <= MAXBYTES
    ensures i < |w.inodes|
    ensures var x := Resized(w, i, off + |src|);
            && Valid(sb, x, owner, {}, {}) && SyncedBut(sb, x, i)
            && Solid(x) && Spliced(v, x, i, off, src) && x.data == w.data
  {
    hide Linked, Owned, Accounted, InUse, At, Keeps, Solid, BytesKept, BytesWritten, OthersKept, Contents, OnDisk;
    var x := Resized(w, i, off + |src|);
    ResizeValid(sb, w, owner, {}, {}, i, x.inodes[i]);
    assert w.inodes[i := x.inodes[i]] == x.inodes;
    WroteDone(sb, v, w, i, off, src, x.inodes[i].size);
    assert w.inodes[i].(size := x.inodes[i].size) == x.inodes[i];
    MetaSynced(sb, v, x, i);
  }

  lemma SplicedThen(v: Vol, x: Vol, y: Vol, i: nat, off: nat, src: seq<byte>)
    requires Solid(v) && Solid(x) && Solid(y) && i < |v.inodes| && Spliced(v, x, i, off, src) && y.inodes == x.inodes
    requires forall j :: 0 <= j < |x.inodes| ==> Contents(y, j) == Contents(x, j)
    ensures Spliced(v, y, i, off, src)
  {
    hide Contents, NoHoles, Indexable, Splice;
  }

  lemma SplicedNothing(v: Vol, i: nat, off: nat)
    requires Solid(v) && i < |v.inodes| && off <= v.inodes[i].size
    ensures Spliced(v, v, i, off, [])
  {
  }

  lemma SplicedTwice(v: Vol, w: Vol, x: Vol, i: nat, off: nat, src: seq<byte>, more: seq<byte>)
    requires Solid(v) && Solid(w) && Solid(x) && i < |v.inodes| == |w.inodes|
    requires Spliced(v, w, i, off, src) && Spliced(w, x, i, off + |src|, more)
    ensures |x.inodes| == |v.inodes| && Spliced(v, x, i, off, src + more)
  {
    hide Contents, NoHoles, Indexable, Splice;
    SpliceTwice(Contents(v, i), off, src, more);
  }

  /** filewrite's limit: what is left of a transaction's blocks after the inode, the indirect
      block and two blocks of slop, at a data block and a bitmap block each. */
  const MAXCHUNK: nat := (MAXOPBLOCKS - 1 - 1 - 2) / 2 * BSIZE

  /** A write within the limit needs no more blocks than a transaction may log, wherever it starts. */
  lemma WriteFits(off: nat, n: nat)
    requires n <= MAXCHUNK
    ensures Budget(off, n) <= MAXOPBLOCKS
  {
    if n > 0 {
      var q, o := off / BSIZE, off % BSIZE;
      assert off + n - 1 == BSIZE * q + (o + n - 1);
      assert (off + n - 1) / BSIZE == q + (o + n - 1) / BSIZE;
    }
  }

  /** The limit is exact for the budget: a longer write has a larger one at some offset. */
  lemma LimitIsExact(n: nat)
    ensures n <= MAXCHUNK <==> forall off: nat :: Budget(off, n) <= MAXOPBLOCKS
  {
    if n <= MAXCHUNK {
      forall off: nat ensures Budget(off, n) <= MAXOPBLOCKS {
        WriteFits(off, n);
      }
    } else {
      assert (n - 1) / BSIZE >= 3;
      assert Budget(0, n) > MAXOPBLOCKS;
    }
  }

  // reading

  /** How much there is to read. */
  function ReadLength(size: word, off: word, n: word): nat {
    if off > size || off + n >= 0x1_0000_0000 then 0
    else if off + n > size then size - off
    else n
  }

  /** readi delivers what there is of the n bytes if and only if their end does not wrap around. */
  lemma ReadsAllIff(size: word, off: word, n: word)
    requires off <= size
    ensures ReadLength(size, off, n) == (if n < size - off then n else size - off) <==>
              off + n < 0x1_0000_0000 || off == size
  {
  }

  /** A file of ten bytes, read from the fifth on for the largest count, gives nothing. */
  lemma WrappedReadIsEmpty()
    ensures ReadLength(10, 5, 0xFFFF_FFFF) == 0
  {
  }

  lemma ReadStart(off: nat)
    ensures Progress(off, 0, 0)
  {
  }

  lemma ReadIndex(v: Vol, i: nat, p: nat)
    requires Solid(v) && i < |v.inodes| && p < v.inodes[i].size
    ensures p / BSIZE < MAXFILE && BlockAt(v, i, p / BSIZE) != 0
  {
    assert NoHoles(v, i) && Stored(v, i, p);
  }

  lemma ReadChunk(v: Vol, i: nat, off: nat, tot: nat, m: nat)
    requires Solid(v) && i < |v.inodes| && off + tot < off + tot + m <= v.inodes[i].size
    requires (off + tot) % BSIZE + m <= BSIZE
    ensures (off + tot) / BSIZE < MAXFILE && BlockAt(v, i, (off + tot) / BSIZE) < |v.data|
    ensures var o := (off + tot) % BSIZE;
            Contents(v, i)[off..off + tot + m] ==
            Contents(v, i)[off..off + tot] + v.data[BlockAt(v, i, (off + tot) / BSIZE)][o..o + m]
  {
    var p, c := off + tot, Contents(v, i);
    assert NoHoles(v, i) && Stored(v, i, p);
    var block := v.data[BlockAt(v, i, p / BSIZE)];
    forall q | p <= q < p + m
      ensures c[q] == block[p % BSIZE + (q - p)]
    {
      SameBlock(v, i, p, q);
    }
    assert c[p..p + m] == block[p % BSIZE..p % BSIZE + m];
    assert c[off..p + m] == c[off..p] + c[p..p + m];
  }

  // truncating

  ghost predicate SameFileBlocks(sb: Super, v: Vol, w: Vol) {
    |v.data| == |w.data| && forall x :: DataStart(sb) <= x < |v.data| ==> w.data[x] == v.data[x]
  }

  lemma SlotBlock(sb: Super, v: Vol, s: Slot)
    requires InRange(sb, v) && IsSlot(v, s) && At(v, s) != 0
    ensures var a := v.inodes[s.inum].addrs;
            s.k > INDIRECT ==> a[INDIRECT] != 0 && At(v, s) == Word(v.data[a[INDIRECT]], s.k - INDIRECT - 1)
    ensures s.k <= INDIRECT ==> At(v, s) == v.inodes[s.inum].addrs[s.k]
  {
  }

  lemma ReleaseBlocks(sb: Super, v: Vol, b: nat)
    requires InRange(sb, v) && b < sb.size
    ensures SameMeta(sb, v, Release(sb, v, b)) && SameFileBlocks(sb, v, Release(sb, v, b))
  {
    BitInRange(sb, b);
  }

  /** Only blocks of inode i lost their owner. */
  ghost predicate OwnersBut(owner: map<nat, Slot>, owner': map<nat, Slot>, i: nat) {
    && (forall b :: b in owner' ==> b in owner && owner'[b] == owner[b])
    && (forall b :: b in owner && owner[b].inum != i ==> b in owner')
  }

  lemma GiveUpOwners(sb: Super, v: Vol, owner: map<nat, Slot>, dead: set<Slot>, s: Slot)
    requires Valid(sb, v, owner, {}, dead) && IsSlot(v, s) && s !in dead && At(v, s) != 0
    ensures OwnersBut(owner, owner - {At(v, s)}, s.inum)
  {
  }

  /** What itrunc has done to v while freeing blocks of inode i. */
  ghost predicate Emptied(sb: Super, v: Vol, w: Vol, owner: map<nat, Slot>, owner': map<nat, Slot>, i: nat) {
    InodesKept(v, w, i) && SameMeta(sb, v, w) && SameFileBlocks(sb, v, w) && OwnersBut(owner, owner', i)
  }

  lemma EmptiedRefl(sb: Super, v: Vol, owner: map<nat, Slot>, i: nat)
    requires InRange(sb, v) && i < |v.inodes|
    ensures Emptied(sb, v, v, owner, owner, i)
  {
  }

  lemma EmptiedTrans(sb: Super, u: Vol, v: Vol, w: Vol, ou: map<nat, Slot>, ov: map<nat, Slot>, ow: map<nat, Slot>,
                     i: nat)
    requires Emptied(sb, u, v, ou, ov, i) && Emptied(sb, v, w, ov, ow, i)
    ensures Emptied(sb, u, w, ou, ow, i)
  {
  }

  lemma SameAtRefl(v: Vol)
    requires Indexable(v)
    ensures SameAt(v, v)
  {
  }

  lemma SameAtTrans(u: Vol, v: Vol, w: Vol)
    requires Indexable(u) && Indexable(v) && Indexable(w) && SameAt(u, v) && SameAt(v, w)
    ensures SameAt(u, w)
  {
    hide At;
    assert forall s :: IsSlot(u, s) <==> IsSlot(v, s);
  }

  lemma SameBlocksTrans(sb: Super, u: Vol, v: Vol, w: Vol)
    requires SameFileBlocks(sb, u, v) && SameFileBlocks(sb, v, w)
    ensures SameFileBlocks(sb, u, w)
  {
  }

  lemma SameBlocksData(sb: Super, u: Vol, v: Vol, w: Vol)
    requires SameFileBlocks(sb, u, v) && w.data == v.data
    ensures SameFileBlocks(sb, u, w)
  {
  }

  lemma SlotOfDirect(v: Vol, i: nat, k: nat)
    requires i < |v.inodes| && k <= INDIRECT && Indexable(v)
    ensures IsSlot(v, Slot(i, k)) && At(v, Slot(i, k)) == v.inodes[i].addrs[k]
  {
  }

  lemma SlotOfEntry(sb: Super, v: Vol, w: Vol, i: nat, j: nat)
    requires InRange(sb, v) && Indexable(w) && SameAt(v, w) && i < |v.inodes| && j < NINDIRECT
    requires v.inodes[i].addrs[INDIRECT] != 0
    ensures IsSlot(w, Slot(i, INDIRECT + 1 + j)) && IsSlot(v, Slot(i, INDIRECT + 1 + j))
    ensures At(w, Slot(i, INDIRECT + 1 + j)) == At(v, Slot(i, INDIRECT + 1 + j))
    ensures At(v, Slot(i, INDIRECT + 1 + j)) == Word(v.data[v.inodes[i].addrs[INDIRECT]], j)
  {
  }

  lemma AllDead(v: Vol, w: Vol, dead: set<Slot>, i: nat)
    requires Indexable(v) && Indexable(w) && SameAt(v, w) && i < |v.inodes| && Slot(i, INDIRECT) in dead
    requires forall k :: INDIRECT < k < NSLOT && At(v, Slot(i, k)) != 0 ==> Slot(i, k) in dead
    ensures forall k :: INDIRECT <= k < NSLOT && At(w, Slot(i, k)) != 0 ==> Slot(i, k) in dead
  {
    hide At;
    forall k | INDIRECT <= k < NSLOT && At(w, Slot(i, k)) != 0
      ensures Slot(i, k) in dead
    {
      assert IsSlot(v, Slot(i, k));
    }
  }

  ghost predicate NoBlocks(v: Vol, i: nat) {
    i < |v.inodes| && forall k :: 0 <= k <= INDIRECT ==> v.inodes[i].addrs[k] == 0
  }

  lemma EmptiedAt(sb: Super, v: Vol, w: Vol, owner: map<nat, Slot>, owner': map<nat, Slot>, i: nat, s: Slot)
    requires InRange(sb, v) && InRange(sb, w) && Emptied(sb, v, w, owner, owner', i) && IsSlot(v, s)
    ensures s.inum != i ==> At(w, s) == At(v, s)
    ensures NoBlocks(w, i) && s.inum == i ==> At(w, s) == 0
  {
  }

  /** A file whose inode and whose blocks stay keeps its contents. */
  lemma EmptiedContents(sb: Super, v: Vol, w: Vol, owner: map<nat, Slot>, j: nat)
    requires Valid(sb, v, owner, {}, {}) && InRange(sb, w) && SameFileBlocks(sb, v, w)
    requires j < |v.inodes| && w.inodes[j] == v.inodes[j] && NoHoles(v, j)
    ensures NoHoles(w, j) && Contents(w, j) == Contents(v, j)
  {
    hide At, Linked, Owned, Accounted, InUse;
    forall p: nat | p < v.inodes[j].size
      ensures Stored(w, j, p) && ByteAt(w, j, p) == ByteAt(v, j, p)
    {
      assert Stored(v, j, p) && IsSlot(v, BlockSlot(j, p / BSIZE));
      UntouchedAt(sb, v, w, BlockSlot(j, p / BSIZE));
      StoredOwned(sb, v, owner, {}, j, p / BSIZE);
    }
  }

  lemma UntouchedAt(sb: Super, v: Vol, w: Vol, s: Slot)
    requires InRange(sb, v) && InRange(sb, w) && SameFileBlocks(sb, v, w) && IsSlot(v, s)
    requires w.inodes[s.inum] == v.inodes[s.inum]
    ensures At(w, s) == At(v, s)
  {
  }

  lemma TruncDone(sb: Super, v: Vol, w: Vol, owner: map<nat, Slot>, owner': map<nat, Slot>, i: nat)
    requires Valid(sb, v, owner, {}, {}) && Solid(v) && Synced(sb, v)
    requires Valid(sb, w, owner', {}, {}) && Emptied(sb, v, w, owner, owner', i)
    ensures i < |v.inodes| == |w.inodes|
    ensures var x := w.(inodes := w.inodes[i := w.inodes[i].(size := 0)]);
            && Valid(sb, x, owner', {}, {}) && SyncedBut(sb, x, i)
            && Solid(x) && OthersKept(v, x, i) && Contents(x, i) == [] && SameKind(v.inodes[i], x.inodes[i])
  {
    hide At, Linked, Owned, Accounted, InUse, OnDisk, NoHoles, Contents;
    var x := w.(inodes := w.inodes[i := w.inodes[i].(size := 0)]);
    ResizeValid(sb, w, owner', {}, {}, i, x.inodes[i]);
    MetaSynced(sb, v, x, i);
    forall j: nat | j < |v.inodes| && j != i
      ensures NoHoles(x, j) && Contents(x, j) == Contents(v, j)
    {
      EmptiedContents(sb, v, x, owner, j);
    }
    EmptyFile(x, i);
  }

  lemma EmptyFile(v: Vol, i: nat)
    requires Indexable(v) && i < |v.inodes| && v.inodes[i].size == 0
    ensures NoHoles(v, i) && Contents(v, i) == []
  {
  }

  /** A data block is in use afterwards iff it was before and no slot of inode i named it. */
  ghost predicate Freed(sb: Super, v: Vol, w: Vol, i: nat)
    requires InRange(sb, v) && InRange(sb, w)
  {
    forall b: nat :: IsData(sb, b) ==>
      (InUse(sb, w, b) <==> InUse(sb, v, b) && forall s :: IsSlot(v, s) && s.inum == i ==> At(v, s) != b)
  }

  lemma TruncFreed(sb: Super, v: Vol, w: Vol, owner: map<nat, Slot>, owner': map<nat, Slot>, i: nat)
    requires Valid(sb, v, owner, {}, {}) && Valid(sb, w, owner', {}, {})
    requires Emptied(sb, v, w, owner, owner', i) && NoBlocks(w, i)
    ensures Freed(sb, v, w, i)
  {
    hide At, InUse, DataStart;
    forall b: nat | IsData(sb, b)
      ensures InUse(sb, w, b) <==> InUse(sb, v, b) && forall s :: IsSlot(v, s) && s.inum == i ==> At(v, s) != b
    {
      DataIsNotZero(sb, b);
      if InUse(sb, w, b) {
        var s := owner'[b];
        assert IsSlot(v, s) && At(w, s) == b;
        EmptiedAt(sb, v, w, owner, owner', i, s);
      }
    }
  }

  lemma FreedThen(sb: Super, v: Vol, w: Vol, x: Vol, y: Vol, i: nat)
    requires InRange(sb, v) && InRange(sb, w) && InRange(sb, x) && InRange(sb, y)
    requires Freed(sb, v, w, i) && x.data == w.data && SameBits(sb, x, y)
    ensures Freed(sb, v, y, i)
  {
    hide InUse, At;
    SameUse(sb, w, x);
  }

  lemma FilesTransitive(v: Vol, x: Vol, y: Vol, i: nat)
    requires Solid(v) && Solid(x) && Solid(y) && OthersKept(v, x, i) && y.inodes == x.inodes
    requires forall j :: 0 <= j < |x.inodes| ==> Contents(y, j) == Contents(x, j)
    ensures OthersKept(v, y, i)
  {
    hide Contents, NoHoles, Indexable;
  }

  // what an operation hands to the log

  /** Every block that changed was logged, and lies behind the log area. */
  ghost predicate Covered(sb: Super, d: seq<Block>, d': seq<Block>, logged: set<nat>) {
    |d'| == |d| && forall x :: 0 <= x < |d| && d'[x] != d[x] ==> x in logged && sb.inodestart <= x
  }

  lemma CoveredSame(sb: Super, d: seq<Block>, logged: set<nat>)
    ensures Covered(sb, d, d, logged)
  {
  }

  lemma CoveredThen(sb: Super, d: seq<Block>, e: seq<Block>, f: seq<Block>, a: set<nat>, b: set<nat>)
    requires Covered(sb, d, e, a) && Covered(sb, e, f, b) && a <= b
    ensures Covered(sb, d, f, b)
  {
  }

  lemma CoveredOne(sb: Super, d: seq<Block>, x: nat, block: Block, logged: set<nat>)
    requires x < |d| && x in logged && sb.inodestart <= x
    ensures Covered(sb, d, d[x := block], logged)
  {
  }

  lemma AllocateCovered(sb: Super, v: Vol, r: nat, logged: set<nat>)
    requires InRange(sb, v) && IsData(sb, r) && r in logged && BitmapBlock(sb.bmapstart, r) in logged
    ensures Covered(sb, v.data, Allocate(sb, v, r).data, logged)
  {
    BitInRange(sb, r);
  }

  lemma ReleaseCovered(sb: Super, v: Vol, b: nat, logged: set<nat>)
    requires InRange(sb, v) && b < sb.size && BitmapBlock(sb.bmapstart, b) in logged
    ensures Covered(sb, v.data, Release(sb, v, b).data, logged)
  {
    BitInRange(sb, b);
  }
}
