/** A file system volume (kernel/fs.c): block contents as seen through the log, inodes, and who
    owns which block. A slot is a place that can hold a block number: a direct entry of an
    inode, its indirect entry, or an entry of its indirect block. */
module Volume {
  import opened Bytes
  import opened Bitmap
  import opened Inodes

  datatype Super = Super(size: nat, ninodes: nat, inodestart: nat, bmapstart: nat)

  /** The first block after the bitmap. */
  function DataStart(sb: Super): nat {
    sb.bmapstart + sb.size / BPB + 1
  }

  predicate SuperOk(sb: Super) {
    sb.inodestart + sb.ninodes / IPB < sb.bmapstart && DataStart(sb) <= sb.size <= 0xFFFF_FFFF
  }

  predicate IsData(sb: Super, b: nat) {
    DataStart(sb) <= b < sb.size
  }

  /** Block 0 is never a data block, so 0 can mean "none". */
  lemma DataIsNotZero(sb: Super, b: nat)
    requires IsData(sb, b)
    ensures b > 0
  {
  }

  function InodeBlock(sb: Super, i: nat): nat {
    i / IPB + sb.inodestart
  }

  datatype Vol = Vol(data: seq<Block>, inodes: seq<Inode>)

  /** Slots of an inode: the direct entries, the indirect entry, the indirect block's entries. */
  const INDIRECT: nat := NDIRECT
  const NSLOT: nat := NDIRECT + 1 + NINDIRECT

  datatype Slot = Slot(inum: nat, k: nat)

  predicate IsSlot(v: Vol, s: Slot) {
    s.inum < |v.inodes| && s.k < NSLOT
  }

  predicate InRange(sb: Super, v: Vol) {
    && SuperOk(sb) && |v.data| == sb.size && |v.inodes| == sb.ninodes
    && forall i :: 0 <= i < |v.inodes| ==> v.inodes[i].addrs[INDIRECT] == 0 || IsData(sb, v.inodes[i].addrs[INDIRECT])
  }

  /** The block number in a slot, 0 if none. */
  function At(v: Vol, s: Slot): word
    requires IsSlot(v, s) && v.inodes[s.inum].addrs[INDIRECT] < |v.data|
  {
    var a := v.inodes[s.inum].addrs;
    if s.k <= INDIRECT then a[s.k]
    else if a[INDIRECT] == 0 then 0
    else Word(v.data[a[INDIRECT]], s.k - INDIRECT - 1)
  }

  predicate InUse(sb: Super, v: Vol, b: nat)
    requires InRange(sb, v) && b < sb.size
  {
    BitInRange(sb, b);
    Used(v.data, sb.bmapstart, b)
  }

  lemma BitInRange(sb: Super, b: nat)
    requires SuperOk(sb) && b < sb.size
    ensures sb.bmapstart <= BitmapBlock(sb.bmapstart, b) < DataStart(sb) <= sb.size
  {
    assert b / BPB <= sb.size / BPB;
  }

  lemma InodeBlockInRange(sb: Super, i: nat)
    requires SuperOk(sb) && i < sb.ninodes
    ensures sb.inodestart <= InodeBlock(sb, i) < sb.bmapstart
  {
    assert i / IPB <= sb.ninodes / IPB;
  }

  /** Every block number in a live slot is owned by that slot. */
  ghost predicate Linked(sb: Super, v: Vol, owner: map<nat, Slot>, dead: set<Slot>)
    requires InRange(sb, v)
  {
    forall s :: IsSlot(v, s) && s !in dead && At(v, s) != 0 ==> At(v, s) in owner && owner[At(v, s)] == s
  }

  /** An owned block is a data block in use that is named by its owner. */
  ghost predicate Owned(sb: Super, v: Vol, owner: map<nat, Slot>, dead: set<Slot>)
    requires InRange(sb, v)
  {
    forall b :: b in owner ==> IsData(sb, b) && InUse(sb, v, b)
                               && IsSlot(v, owner[b]) && owner[b] !in dead && At(v, owner[b]) == b
  }

  /** Metadata blocks are in use, and so are exactly the owned and the loose data blocks. */
  ghost predicate Accounted(sb: Super, v: Vol, owner: map<nat, Slot>, loose: set<nat>)
    requires InRange(sb, v)
  {
    && (forall b: nat :: b < DataStart(sb) ==> InUse(sb, v, b))
    && (forall b: nat :: IsData(sb, b) && InUse(sb, v, b) ==> b in owner || b in loose)
    && (forall b :: b in loose ==> IsData(sb, b) && InUse(sb, v, b) && b !in owner)
  }

  /** `loose` blocks are allocated but not yet in a slot; `dead` slots still hold the number of
      a block that has been given up. Both are empty between operations. */
  ghost predicate Valid(sb: Super, v: Vol, owner: map<nat, Slot>, loose: set<nat>, dead: set<Slot>) {
    && InRange(sb, v)
    && Linked(sb, v, owner, dead) && Owned(sb, v, owner, dead) && Accounted(sb, v, owner, loose)
  }

  /** Block ownership, without the bookkeeping: no two slots share a block, every block in a
      slot is a data block marked in use, and every data block in use is in some slot. */
  ghost predicate Exclusive(sb: Super, v: Vol) {
    && InRange(sb, v)
    && (forall s, t :: IsSlot(v, s) && IsSlot(v, t) && s != t && At(v, s) != 0 ==> At(v, s) != At(v, t))
    && (forall s :: IsSlot(v, s) && At(v, s) != 0 ==> UsedData(sb, v, At(v, s)))
    && (forall b: nat :: UsedData(sb, v, b) ==> Named(sb, v, b))
  }

  predicate UsedData(sb: Super, v: Vol, b: nat)
    requires InRange(sb, v)
  {
    IsData(sb, b) && InUse(sb, v, b)
  }

  ghost predicate Named(sb: Super, v: Vol, b: nat)
    requires InRange(sb, v)
  {
    exists s :: IsSlot(v, s) && At(v, s) == b
  }

  lemma ValidIsExclusive(sb: Super, v: Vol, owner: map<nat, Slot>)
    requires Valid(sb, v, owner, {}, {})
    ensures Exclusive(sb, v)
  {
    hide At, InUse;
    forall b: nat | UsedData(sb, v, b)
      ensures Named(sb, v, b)
    {
      assert b in owner;
      assert IsSlot(v, owner[b]) && At(v, owner[b]) == b;
    }
  }

  // how the pieces of the state depend on the blocks

  /** Slots keep their contents when the inodes and the indirect blocks do. */
  lemma SameSlots(v: Vol, w: Vol, s: Slot)
    requires IsSlot(v, s) && w.inodes == v.inodes && |w.data| == |v.data|
    requires v.inodes[s.inum].addrs[INDIRECT] < |v.data|
    requires var ind := v.inodes[s.inum].addrs[INDIRECT]; ind != 0 ==> w.data[ind] == v.data[ind]
    ensures IsSlot(w, s) && At(w, s) == At(v, s)
  {
  }

  lemma SameUse(sb: Super, v: Vol, w: Vol)
    requires InRange(sb, v) && InRange(sb, w)
    requires forall x :: sb.bmapstart <= x < DataStart(sb) ==> w.data[x] == v.data[x]
    ensures forall b: nat :: b < sb.size ==> InUse(sb, w, b) == InUse(sb, v, b)
  {
    forall b: nat | b < sb.size
      ensures InUse(sb, w, b) == InUse(sb, v, b)
    {
      BitInRange(sb, b);
    }
  }

  /** The indirect block of an inode is owned by the inode's indirect slot. */
  lemma IndirectOwned(sb: Super, v: Vol, owner: map<nat, Slot>, loose: set<nat>, dead: set<Slot>, i: nat)
    requires Valid(sb, v, owner, loose, dead) && i < |v.inodes| && Slot(i, INDIRECT) !in dead
    requires v.inodes[i].addrs[INDIRECT] != 0
    ensures var ind := v.inodes[i].addrs[INDIRECT]; ind in owner && owner[ind] == Slot(i, INDIRECT)
  {
    assert At(v, Slot(i, INDIRECT)) == v.inodes[i].addrs[INDIRECT];
  }

  ghost predicate SameAt(v: Vol, w: Vol)
    requires forall i :: 0 <= i < |v.inodes| ==> v.inodes[i].addrs[INDIRECT] < |v.data|
    requires forall i :: 0 <= i < |w.inodes| ==> w.inodes[i].addrs[INDIRECT] < |w.data|
  {
    |v.inodes| == |w.inodes| && forall s :: IsSlot(v, s) ==> At(w, s) == At(v, s)
  }

  ghost predicate SameBits(sb: Super, v: Vol, w: Vol)
    requires InRange(sb, v) && InRange(sb, w)
  {
    forall b: nat :: b < sb.size ==> InUse(sb, w, b) == InUse(sb, v, b)
  }

  /** Ownership depends only on the slots and the bitmap. */
  lemma SameOwnership(sb: Super, v: Vol, w: Vol, owner: map<nat, Slot>, loose: set<nat>, dead: set<Slot>)
    requires Valid(sb, v, owner, loose, dead) && InRange(sb, w) && SameAt(v, w) && SameBits(sb, v, w)
    ensures Valid(sb, w, owner, loose, dead)
  {
    hide At, InUse, DataStart;
    assert forall s :: IsSlot(w, s) <==> IsSlot(v, s);
  }

  // balloc

  function Allocate(sb: Super, v: Vol, r: nat): Vol
    requires InRange(sb, v) && r < sb.size
  {
    BitInRange(sb, r);
    v.(data := Mark(v.data, sb.bmapstart, r, true)[r := ZeroBlock()])
  }

  lemma AllocateUse(sb: Super, v: Vol, r: nat, c: nat)
    requires InRange(sb, v) && IsData(sb, r) && c < sb.size
    ensures InRange(sb, Allocate(sb, v, r))
    ensures InUse(sb, Allocate(sb, v, r), c) == (c == r || InUse(sb, v, c))
  {
    BitInRange(sb, r);
    BitInRange(sb, c);
    UsedAfterMark(v.data, sb.bmapstart, r, true, c);
  }

  lemma AllocateAt(sb: Super, v: Vol, owner: map<nat, Slot>, loose: set<nat>, r: nat, s: Slot)
    requires Valid(sb, v, owner, loose, {}) && IsData(sb, r) && !InUse(sb, v, r) && IsSlot(v, s)
    ensures IsSlot(Allocate(sb, v, r), s) && At(Allocate(sb, v, r), s) == At(v, s)
  {
    BitInRange(sb, r);
    var ind := v.inodes[s.inum].addrs[INDIRECT];
    if ind != 0 {
      IndirectOwned(sb, v, owner, loose, {}, s.inum);
    }
    SameSlots(v, Allocate(sb, v, r), s);
  }

  /** A freshly allocated block is in use and loose; no slot and no other block is affected. */
  lemma AllocateValid(sb: Super, v: Vol, owner: map<nat, Slot>, loose: set<nat>, r: nat)
    requires Valid(sb, v, owner, loose, {}) && r < sb.size && !InUse(sb, v, r)
    ensures IsData(sb, r) && r !in owner && r !in loose
    ensures Valid(sb, Allocate(sb, v, r), owner, loose + {r}, {})
  {
    var w := Allocate(sb, v, r);
    forall c: nat | c < sb.size
      ensures InRange(sb, w) && InUse(sb, w, c) == (c == r || InUse(sb, v, c))
    {
      AllocateUse(sb, v, r, c);
    }
    forall s | IsSlot(w, s)
      ensures At(w, s) == At(v, s)
    {
      AllocateAt(sb, v, owner, loose, r, s);
    }
  }

  // putting a loose block into an empty slot

  /** Store r in slot s: in the inode, or in the inode's indirect block. */
  function Attach(v: Vol, s: Slot, r: word): Vol
    requires IsSlot(v, s) && (s.k > INDIRECT ==> v.inodes[s.inum].addrs[INDIRECT] < |v.data|)
  {
    var ip := v.inodes[s.inum];
    if s.k <= INDIRECT then v.(inodes := v.inodes[s.inum := ip.(addrs := ip.addrs[s.k := r])])
    else
      var ind := ip.addrs[INDIRECT];
      v.(data := v.data[ind := SetWord(v.data[ind], s.k - INDIRECT - 1, r)])
  }

  /** Two inodes never share an indirect block. */
  lemma IndirectsDiffer(sb: Super, v: Vol, owner: map<nat, Slot>, loose: set<nat>, i: nat, j: nat)
    requires Valid(sb, v, owner, loose, {}) && i < |v.inodes| && j < |v.inodes| && i != j
    requires v.inodes[i].addrs[INDIRECT] != 0
    ensures v.inodes[i].addrs[INDIRECT] != v.inodes[j].addrs[INDIRECT]
  {
    hide At, InUse, DataStart;
    IndirectOwned(sb, v, owner, loose, {}, i);
    if v.inodes[j].addrs[INDIRECT] != 0 {
      IndirectOwned(sb, v, owner, loose, {}, j);
    }
  }

  lemma AttachEntryAt(sb: Super, v: Vol, owner: map<nat, Slot>, loose: set<nat>, s: Slot, r: word, t: Slot)
    requires Valid(sb, v, owner, loose, {}) && IsSlot(v, s) && IsSlot(v, t)
    requires s.k > INDIRECT && v.inodes[s.inum].addrs[INDIRECT] != 0
    ensures InRange(sb, Attach(v, s, r)) && At(Attach(v, s, r), t) == if t == s then r else At(v, t)
  {
    hide InUse, DataStart;
    var ind := v.inodes[s.inum].addrs[INDIRECT];
    if t.k > INDIRECT {
      if t.inum == s.inum {
        WordSetWord(v.data[ind], s.k - INDIRECT - 1, r, t.k - INDIRECT - 1);
      } else {
        IndirectsDiffer(sb, v, owner, loose, s.inum, t.inum);
      }
    }
  }

  lemma AttachAt(sb: Super, v: Vol, owner: map<nat, Slot>, loose: set<nat>, s: Slot, r: word, t: Slot)
    requires Valid(sb, v, owner, loose, {}) && IsSlot(v, s) && IsSlot(v, t) && At(v, s) == 0 && r in loose
    requires s.k > INDIRECT ==> v.inodes[s.inum].addrs[INDIRECT] != 0
    requires s.k == INDIRECT ==> v.data[r] == ZeroBlock()
    ensures InRange(sb, Attach(v, s, r)) && At(Attach(v, s, r), t) == if t == s then r else At(v, t)
  {
    hide InUse, DataStart, Word;
    if s.k > INDIRECT {
      AttachEntryAt(sb, v, owner, loose, s, r, t);
    } else if s.k == INDIRECT && t.inum == s.inum && t.k > INDIRECT {
      WordOfZero(t.k - INDIRECT - 1);
    }
  }

  lemma AttachUse(sb: Super, v: Vol, owner: map<nat, Slot>, loose: set<nat>, s: Slot, r: word)
    requires Valid(sb, v, owner, loose, {}) && IsSlot(v, s) && r in loose
    requires s.k > INDIRECT ==> v.inodes[s.inum].addrs[INDIRECT] != 0
    ensures InRange(sb, Attach(v, s, r))
    ensures forall b: nat :: b < sb.size ==> InUse(sb, Attach(v, s, r), b) == InUse(sb, v, b)
  {
    var w := Attach(v, s, r);
    SameUse(sb, v, w);
  }

  lemma AttachValid(sb: Super, v: Vol, owner: map<nat, Slot>, loose: set<nat>, s: Slot, r: word)
    requires Valid(sb, v, owner, loose, {}) && IsSlot(v, s) && At(v, s) == 0 && r in loose
    requires s.k > INDIRECT ==> v.inodes[s.inum].addrs[INDIRECT] != 0
    requires s.k == INDIRECT ==> v.data[r] == ZeroBlock()
    ensures Valid(sb, Attach(v, s, r), owner[r := s], loose - {r}, {})
  {
    hide At, InUse;
    var w := Attach(v, s, r);
    AttachUse(sb, v, owner, loose, s, r);
    assert forall t :: IsSlot(w, t) <==> IsSlot(v, t);
    forall t | IsSlot(v, t)
      ensures At(w, t) == if t == s then r else At(v, t)
    {
      AttachAt(sb, v, owner, loose, s, r, t);
    }
    AttachOwner(sb, v, w, owner, loose, s, r);
  }

  lemma AttachOwner(sb: Super, v: Vol, w: Vol, owner: map<nat, Slot>, loose: set<nat>, s: Slot, r: word)
    requires Valid(sb, v, owner, loose, {}) && InRange(sb, w) && |w.inodes| == |v.inodes|
    requires IsSlot(v, s) && At(v, s) == 0 && r in loose && SameBits(sb, v, w)
    requires forall t :: IsSlot(v, t) ==> At(w, t) == if t == s then r else At(v, t)
    ensures Valid(sb, w, owner[r := s], loose - {r}, {})
  {
    hide At, InUse, DataStart;
    var owner' := owner[r := s];
    forall t | IsSlot(w, t) && At(w, t) != 0
      ensures At(w, t) in owner' && owner'[At(w, t)] == t
    {
      assert IsSlot(v, t);
      if t != s { assert At(v, t) in owner; }
    }
    forall b | b in owner'
      ensures IsData(sb, b) && InUse(sb, w, b) && IsSlot(w, owner'[b]) && At(w, owner'[b]) == b
    {
      if b != r {
        assert b in owner && At(v, owner[b]) == b;
        DataIsNotZero(sb, b);
      }
    }
  }

  // writing blocks that hold no block numbers

  /** Overwrite a block that is neither bitmap nor an indirect block. */
  function Overwrite(v: Vol, b: nat, block: Block): Vol
    requires b < |v.data|
  {
    v.(data := v.data[b := block])
  }

  ghost predicate Plain(sb: Super, owner: map<nat, Slot>, b: nat) {
    b < sb.bmapstart || (b in owner && owner[b].k != INDIRECT)
  }

  lemma OverwriteValid(sb: Super, v: Vol, owner: map<nat, Slot>, loose: set<nat>, b: nat, block: Block)
    requires Valid(sb, v, owner, loose, {}) && b < sb.size && Plain(sb, owner, b)
    ensures Valid(sb, Overwrite(v, b, block), owner, loose, {})
    ensures SameAt(v, Overwrite(v, b, block))
  {
    hide At, InUse;
    var w := Overwrite(v, b, block);
    assert b < sb.bmapstart || b >= DataStart(sb);
    SameUse(sb, v, w);
    forall s | IsSlot(v, s)
      ensures At(w, s) == At(v, s)
    {
      OverwriteAt(sb, v, owner, loose, b, block, s);
    }
    SameOwnership(sb, v, w, owner, loose, {});
  }

  lemma OverwriteAt(sb: Super, v: Vol, owner: map<nat, Slot>, loose: set<nat>, b: nat, block: Block, s: Slot)
    requires Valid(sb, v, owner, loose, {}) && b < sb.size && Plain(sb, owner, b) && IsSlot(v, s)
    ensures At(Overwrite(v, b, block), s) == At(v, s)
  {
    hide At, InUse;
    var ind := v.inodes[s.inum].addrs[INDIRECT];
    if ind != 0 {
      IndirectOwned(sb, v, owner, loose, {}, s.inum);
      assert ind != b;
    }
    SameSlots(v, Overwrite(v, b, block), s);
  }

  /** Inode fields other than the block numbers do not matter for ownership. */
  lemma ResizeValid(sb: Super, v: Vol, owner: map<nat, Slot>, loose: set<nat>, dead: set<Slot>, i: nat, ip: Inode)
    requires Valid(sb, v, owner, loose, dead) && i < |v.inodes| && ip.addrs == v.inodes[i].addrs
    ensures Valid(sb, v.(inodes := v.inodes[i := ip]), owner, loose, dead)
    ensures SameAt(v, v.(inodes := v.inodes[i := ip]))
  {
    var w := v.(inodes := v.inodes[i := ip]);
    SameUse(sb, v, w);
    assert SameAt(v, w);
    SameOwnership(sb, v, w, owner, loose, dead);
  }

  // bfree and itrunc

  /** Giving up the block of a slot: from now on the slot is dead and the block loose. */
  lemma GiveUp(sb: Super, v: Vol, owner: map<nat, Slot>, loose: set<nat>, dead: set<Slot>, s: Slot)
    requires Valid(sb, v, owner, loose, dead) && IsSlot(v, s) && s !in dead && At(v, s) != 0
    ensures Valid(sb, v, owner - {At(v, s)}, loose + {At(v, s)}, dead + {s})
  {
  }

  function Release(sb: Super, v: Vol, b: nat): Vol
    requires InRange(sb, v) && b < sb.size
  {
    BitInRange(sb, b);
    v.(data := Mark(v.data, sb.bmapstart, b, false))
  }

  lemma ReleaseUse(sb: Super, v: Vol, b: nat, c: nat)
    requires InRange(sb, v) && IsData(sb, b) && c < sb.size
    ensures InRange(sb, Release(sb, v, b))
    ensures InUse(sb, Release(sb, v, b), c) == (c != b && InUse(sb, v, c))
  {
    BitInRange(sb, b);
    BitInRange(sb, c);
    UsedAfterMark(v.data, sb.bmapstart, b, false, c);
  }

  /** A loose block can be freed, and was in use until then. */
  lemma ReleaseValid(sb: Super, v: Vol, owner: map<nat, Slot>, loose: set<nat>, dead: set<Slot>, b: nat)
    requires Valid(sb, v, owner, loose, dead) && b in loose
    ensures b < sb.size && InUse(sb, v, b) && Valid(sb, Release(sb, v, b), owner, loose - {b}, dead)
    ensures SameAt(v, Release(sb, v, b))
  {
    var w := Release(sb, v, b);
    forall c: nat | c < sb.size
      ensures InRange(sb, w) && InUse(sb, w, c) == (c != b && InUse(sb, v, c))
    {
      ReleaseUse(sb, v, b, c);
    }
    forall s | IsSlot(v, s)
      ensures At(w, s) == At(v, s)
    {
      BitInRange(sb, b);
      SameSlots(v, w, s);
    }
  }

  /** Clearing a dead direct entry. */
  lemma ClearValid(sb: Super, v: Vol, owner: map<nat, Slot>, loose: set<nat>, dead: set<Slot>, s: Slot)
    requires Valid(sb, v, owner, loose, dead) && IsSlot(v, s) && s.k < INDIRECT && s in dead
    ensures Valid(sb, Attach(v, s, 0), owner, loose, dead - {s})
  {
    var w := Attach(v, s, 0);
    SameUse(sb, v, w);
    assert forall t :: IsSlot(v, t) ==> IsSlot(w, t) && At(w, t) == if t == s then 0 else At(v, t);
  }

  /** Clearing the indirect entry once it and the entries of its block are all given up. */
  lemma ClearIndirectValid(sb: Super, v: Vol, owner: map<nat, Slot>, loose: set<nat>, dead: set<Slot>, i: nat)
    requires Valid(sb, v, owner, loose, dead) && i < |v.inodes|
    requires forall s :: s in dead ==> s.inum == i && s.k >= INDIRECT
    requires forall k :: INDIRECT <= k < NSLOT && At(v, Slot(i, k)) != 0 ==> Slot(i, k) in dead
    ensures Valid(sb, Attach(v, Slot(i, INDIRECT), 0), owner, loose, {})
  {
    var w := Attach(v, Slot(i, INDIRECT), 0);
    SameUse(sb, v, w);
    forall t | IsSlot(v, t)
      ensures IsSlot(w, t) && At(w, t) == if t.inum == i && t.k >= INDIRECT then 0 else At(v, t)
    {
    }
  }
}
