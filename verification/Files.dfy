/** Files as byte sequences over the blocks of a volume (kernel/fs.c, "Inode content"). */
module Files {
  import opened Bytes
  import opened Inodes
  import opened Volume

  const MAXBYTES: nat := MAXFILE * BSIZE

  /** The slot for the bn-th block of inode i. */
  function BlockSlot(i: nat, bn: nat): Slot {
    Slot(i, if bn < NDIRECT then bn else bn + 1)
  }

  predicate Indexable(v: Vol) {
    forall i :: 0 <= i < |v.inodes| ==> v.inodes[i].addrs[INDIRECT] < |v.data|
  }

  function BlockAt(v: Vol, i: nat, bn: nat): word
    requires Indexable(v) && i < |v.inodes| && bn < MAXFILE
  {
    At(v, BlockSlot(i, bn))
  }

  /** Byte p of the file is stored somewhere. */
  predicate Stored(v: Vol, i: nat, p: nat)
    requires Indexable(v) && i < |v.inodes|
  {
    p < MAXBYTES && 0 < BlockAt(v, i, p / BSIZE) < |v.data|
  }

  function ByteAt(v: Vol, i: nat, p: nat): byte
    requires Indexable(v) && i < |v.inodes| && Stored(v, i, p)
  {
    v.data[BlockAt(v, i, p / BSIZE)][p % BSIZE]
  }

  /** A file has no holes: every byte below its size is stored. */
  ghost predicate NoHoles(v: Vol, i: nat)
    requires Indexable(v) && i < |v.inodes|
  {
    forall p: nat :: p < v.inodes[i].size ==> Stored(v, i, p)
  }

  ghost function Contents(v: Vol, i: nat): (r: seq<byte>)
    requires Indexable(v) && i < |v.inodes| && NoHoles(v, i)
    ensures |r| == v.inodes[i].size
    ensures forall p: nat :: p < |r| ==> r[p] == ByteAt(v, i, p)
  {
    Prefix(v, i, v.inodes[i].size)
  }

  ghost function Prefix(v: Vol, i: nat, n: nat): (r: seq<byte>)
    requires Indexable(v) && i < |v.inodes| && n <= v.inodes[i].size && NoHoles(v, i)
    ensures |r| == n
    ensures forall p: nat :: p < n ==> r[p] == ByteAt(v, i, p)
  {
    if n == 0 then [] else Prefix(v, i, n - 1) + [ByteAt(v, i, n - 1)]
  }

  /** Every stored block of v keeps its place and its contents in w. */
  ghost predicate Keeps(v: Vol, w: Vol) {
    && Indexable(v) && Indexable(w) && |w.inodes| == |v.inodes| && |w.data| == |v.data|
    && forall j, bn :: 0 <= j < |v.inodes| && 0 <= bn < MAXFILE && 0 < BlockAt(v, j, bn) < |v.data| ==>
         BlockAt(w, j, bn) == BlockAt(v, j, bn) && w.data[BlockAt(v, j, bn)] == v.data[BlockAt(v, j, bn)]
  }

  lemma KeepsTransitive(u: Vol, v: Vol, w: Vol)
    requires Keeps(u, v) && Keeps(v, w)
    ensures Keeps(u, w)
  {
    forall j, bn | 0 <= j < |u.inodes| && 0 <= bn < MAXFILE && 0 < BlockAt(u, j, bn) < |u.data|
      ensures BlockAt(w, j, bn) == BlockAt(u, j, bn) && w.data[BlockAt(u, j, bn)] == u.data[BlockAt(u, j, bn)]
    {
      assert BlockAt(v, j, bn) == BlockAt(u, j, bn);
    }
  }

  lemma KeepsByte(v: Vol, w: Vol, j: nat, p: nat)
    requires Keeps(v, w) && j < |v.inodes| && Stored(v, j, p)
    ensures Stored(w, j, p) && ByteAt(w, j, p) == ByteAt(v, j, p)
  {
  }

  lemma KeepsContents(v: Vol, w: Vol, j: nat)
    requires Keeps(v, w) && j < |v.inodes| && w.inodes[j].size == v.inodes[j].size && NoHoles(v, j)
    ensures NoHoles(w, j) && Contents(w, j) == Contents(v, j)
  {
    forall p: nat | p < v.inodes[j].size
      ensures Stored(w, j, p) && ByteAt(w, j, p) == ByteAt(v, j, p)
    {
      KeepsByte(v, w, j, p);
    }
  }

  /** A stored block is owned by its slot, so it is no indirect block and no other file's. */
  lemma StoredOwned(sb: Super, v: Vol, owner: map<nat, Slot>, loose: set<nat>, j: nat, bn: nat)
    requires Valid(sb, v, owner, loose, {}) && j < |v.inodes| && bn < MAXFILE && BlockAt(v, j, bn) != 0
    ensures var b := BlockAt(v, j, bn);
            b in owner && owner[b] == BlockSlot(j, bn) && IsData(sb, b) && InUse(sb, v, b)
  {
    assert IsSlot(v, BlockSlot(j, bn));
  }

  lemma SlotInjective(i: nat, bn: nat, j: nat, bm: nat)
    requires BlockSlot(i, bn) == BlockSlot(j, bm)
    ensures i == j && bn == bm
  {
  }

  // balloc and the two ways to attach a block keep every stored block

  lemma AllocateKeeps(sb: Super, v: Vol, owner: map<nat, Slot>, loose: set<nat>, r: nat)
    requires Valid(sb, v, owner, loose, {}) && IsData(sb, r) && !InUse(sb, v, r)
    ensures Keeps(v, Allocate(sb, v, r)) && Allocate(sb, v, r).data[r] == ZeroBlock()
  {
    hide InUse, At, Valid;
    RangeOf(sb, v, owner, loose);
    var w := Allocate(sb, v, r);
    forall j, bn | 0 <= j < |v.inodes| && 0 <= bn < MAXFILE && 0 < BlockAt(v, j, bn) < |v.data|
      ensures BlockAt(w, j, bn) == BlockAt(v, j, bn) && w.data[BlockAt(v, j, bn)] == v.data[BlockAt(v, j, bn)]
    {
      AllocateAt(sb, v, owner, loose, r, BlockSlot(j, bn));
      StoredOwned(sb, v, owner, loose, j, bn);
      BitInRange(sb, r);
    }
  }

  lemma RangeOf(sb: Super, v: Vol, owner: map<nat, Slot>, loose: set<nat>)
    requires Valid(sb, v, owner, loose, {})
    ensures InRange(sb, v) && Indexable(v)
  {
  }

  lemma AttachKeeps(sb: Super, v: Vol, owner: map<nat, Slot>, loose: set<nat>, s: Slot, r: word)
    requires Valid(sb, v, owner, loose, {}) && IsSlot(v, s) && At(v, s) == 0 && r in loose
    requires s.k > INDIRECT ==> v.inodes[s.inum].addrs[INDIRECT] != 0
    requires s.k == INDIRECT ==> v.data[r] == ZeroBlock()
    ensures Keeps(v, Attach(v, s, r))
  {
    hide InUse, At, Valid;
    RangeOf(sb, v, owner, loose);
    var w := Attach(v, s, r);
    AttachUse(sb, v, owner, loose, s, r);
    forall j, bn | 0 <= j < |v.inodes| && 0 <= bn < MAXFILE && 0 < BlockAt(v, j, bn) < |v.data|
      ensures BlockAt(w, j, bn) == BlockAt(v, j, bn) && w.data[BlockAt(v, j, bn)] == v.data[BlockAt(v, j, bn)]
    {
      AttachAt(sb, v, owner, loose, s, r, BlockSlot(j, bn));
      StoredOwned(sb, v, owner, loose, j, bn);
      if s.k > INDIRECT {
        IndirectOwned(sb, v, owner, loose, {}, s.inum);
      }
    }
  }

  /** Overwriting the bn-th block of file i changes those bytes of file i and nothing else. */
  lemma OverwriteByte(sb: Super, v: Vol, owner: map<nat, Slot>, i: nat, bn: nat, block: Block, j: nat, p: nat)
    requires Valid(sb, v, owner, {}, {}) && i < |v.inodes| && bn < MAXFILE && BlockAt(v, i, bn) != 0
    requires j < |v.inodes| && Stored(v, j, p)
    ensures var w := Overwrite(v, BlockAt(v, i, bn), block);
            && Valid(sb, w, owner, {}, {}) && Stored(w, j, p)
            && ByteAt(w, j, p) == if j == i && p / BSIZE == bn then block[p % BSIZE] else ByteAt(v, j, p)
  {
    hide InUse, At, Valid;
    RangeOf(sb, v, owner, {});
    var b := BlockAt(v, i, bn);
    StoredOwned(sb, v, owner, {}, i, bn);
    OverwriteValid(sb, v, owner, {}, b, block);
    StoredOwned(sb, v, owner, {}, j, p / BSIZE);
    assert IsSlot(v, BlockSlot(j, p / BSIZE));
    if BlockAt(v, j, p / BSIZE) == b {
      SlotInjective(i, bn, j, p / BSIZE);
    }
  }

  /** Only block numbers of inode i changed, its indirect block stayed where it was, and no
      stored block and no block before the bitmap changed. */
  ghost predicate Maps(sb: Super, v: Vol, w: Vol, i: nat) {
    && Keeps(v, w) && i < |v.inodes| && SameMeta(sb, v, w)
    && w.inodes == v.inodes[i := v.inodes[i].(addrs := w.inodes[i].addrs)]
    && (v.inodes[i].addrs[INDIRECT] != 0 ==> w.inodes[i].addrs[INDIRECT] == v.inodes[i].addrs[INDIRECT])
  }

  ghost predicate SameMeta(sb: Super, v: Vol, w: Vol) {
    sb.bmapstart <= |v.data| == |w.data| && forall x :: 0 <= x < sb.bmapstart ==> w.data[x] == v.data[x]
  }

  lemma MapsSame(sb: Super, v: Vol, owner: map<nat, Slot>, i: nat)
    requires Valid(sb, v, owner, {}, {}) && i < |v.inodes|
    ensures Maps(sb, v, v, i)
  {
  }

  lemma MapsTransitive(sb: Super, u: Vol, v: Vol, w: Vol, i: nat)
    requires Maps(sb, u, v, i) && Maps(sb, v, w, i)
    ensures Maps(sb, u, w, i)
  {
    hide Keeps;
    KeepsTransitive(u, v, w);
    KeepsSizes(u, v);
    KeepsSizes(v, w);
  }

  lemma KeepsSizes(v: Vol, w: Vol)
    requires Keeps(v, w)
    ensures |w.inodes| == |v.inodes| && Indexable(v) && Indexable(w)
  {
  }
}
