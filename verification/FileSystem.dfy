/** Allocation, block mapping, truncation, reading and writing of files (kernel/fs.c) and the
    chunked write of kernel/file.c, as loops over a volume. `logged` collects the blocks that
    log_write records for the current operation. */
module FileSystem {
  import opened Bytes
  import opened Params
  import opened Sets
  import opened Bitmap
  import opened Inodes
  import opened Volume
  import opened Files
  import opened Transfers
  import opened Format

  /** The place of block BPB * q + bi in the bitmap. */
  lemma BitIndex(q: nat, bi: nat)
    requires bi < BPB
    ensures (BPB * q + bi) / BPB == q && (BPB * q + bi) % BPB == bi
    ensures (BPB * q + bi) % 8 == bi % 8
  {
    LowBits(BPB * q + bi, BSIZE * q + bi / 8, bi % 8);
  }

  /** What the inner loops of balloc and bfree see of the bitmap. */
  lemma TestBit(sb: Super, v: Vol, q: nat, bi: nat, x: bool)
    requires InRange(sb, v) && bi < BPB && BPB * q + bi < sb.size
    ensures sb.bmapstart + q < |v.data|
    ensures InUse(sb, v, BPB * q + bi) <==> Bit(v.data[sb.bmapstart + q][bi / 8], bi % 8)
    ensures Mark(v.data, sb.bmapstart, BPB * q + bi, x) ==
              v.data[sb.bmapstart + q := v.data[sb.bmapstart + q][bi / 8 :=
                  PutBitInByte(v.data[sb.bmapstart + q][bi / 8], bi % 8, x)]]
  {
    hide Bit, PutBitInByte;
    BitIndex(q, bi);
    BitInRange(sb, BPB * q + bi);
  }

  function BitBlock(sb: Super, b: nat): nat {
    BitmapBlock(sb.bmapstart, b)
  }

  class Fs {
    const sb: Super
    var data: seq<Block>
    var inodes: seq<Inode>
    ghost var owner: map<nat, Slot>
    ghost var logged: set<nat>

    /** A volume as mkfs formats it, before any file is made. */
    constructor (sb: Super)
      requires SuperOk(sb)
      ensures this.sb == sb && View() == Formatted(sb) && Good() && logged == {}
    {
      FormattedIsGood(sb);
      this.sb := sb;
      data, inodes := Formatted(sb).data, Formatted(sb).inodes;
      owner, logged := map[], {};
    }

    ghost function View(): Vol
      reads this
    {
      Vol(data, inodes)
    }

    /** Block ownership is in order, with `loose` allocated but not yet in a slot. */
    ghost predicate Ok(loose: set<nat>)
      reads this
    {
      Valid(sb, View(), owner, loose, {})
    }

    /** balloc: the first free block, zeroed and marked, or 0 if there is none. */
    method Balloc(ghost loose: set<nat>) returns (r: nat)
      requires Ok(loose)
      modifies this`data, this`logged
      ensures r == 0 ==> data == old(data) && logged == old(logged) && forall c: nat :: c < sb.size ==>
                InUse(sb, View(), c)
      ensures r != 0 ==>
                && r < sb.size && !InUse(sb, old(View()), r) && (forall c: nat :: c < r ==> InUse(sb, old(View()), c))
                && View() == Allocate(sb, old(View()), r)
                && logged == old(logged) + {BitBlock(sb, r), r}
    {
      hide Bit, PutBitInByte, Linked, Owned, Accounted, InUse, DataStart, Allocate, BitmapBlock, SuperOk, Mark;
      ghost var v := View();
      var b := 0;
      ghost var q := 0;
      while b < sb.size
        invariant b == BPB * q
        invariant View() == v && logged == old(logged)
        invariant forall c: nat :: c < b && c < sb.size ==> InUse(sb, v, c)
        decreases sb.size - b
      {
        TestBit(sb, v, q, 0, true);
        BitIndex(q, 0);
        var bp := data[sb.bmapstart + b / BPB];
        var bi := 0;
        while bi < BPB && b + bi < sb.size
          invariant 0 <= bi <= BPB
          invariant View() == v && logged == old(logged)
          invariant forall c: nat :: c < b + bi && c < sb.size ==> InUse(sb, v, c)
          decreases BPB - bi
        {
          TestBit(sb, v, q, bi, true);
          if !Bit(bp[bi / 8], bi % 8) {
            Take(b / BPB, bi, bp);
            NotFirst(sb, v, owner, loose, b + bi);
            return b + bi;
          }
          bi := bi + 1;
        }
        b := b + BPB;
        q := q + 1;
      }
      return 0;
    }

    /** The part of balloc that marks a block in use and zeroes it. */
    method Take(q: nat, bi: nat, bp: Block)
      requires InRange(sb, View()) && bi < BPB && BPB * q + bi < sb.size
      requires sb.bmapstart + q < |data| && bp == data[sb.bmapstart + q]
      modifies this`data, this`logged
      ensures View() == Allocate(sb, old(View()), BPB * q + bi)
      ensures logged == old(logged) + {BitBlock(sb, BPB * q + bi), BPB * q + bi}
    {
      hide Bit, PutBitInByte, InUse;
      TestBit(sb, View(), q, bi, true);
      data := data[sb.bmapstart + q := bp[bi / 8 := PutBitInByte(bp[bi / 8], bi % 8, true)]];
      logged := logged + {BitBlock(sb, BPB * q + bi)};
      Bzero(BPB * q + bi);
    }

    /** Zero a block. */
    method Bzero(b: nat)
      requires b < |data|
      modifies this`data, this`logged
      ensures data == old(data)[b := ZeroBlock()] && logged == old(logged) + {b}
    {
      data := data[b := ZeroBlock()];
      logged := logged + {b};
    }

    /** bfree; false is the panic "freeing free block". */
    method Bfree(b: nat) returns (ok: bool)
      requires InRange(sb, View()) && b < sb.size
      modifies this`data, this`logged
      ensures ok <==> InUse(sb, old(View()), b)
      ensures !ok ==> data == old(data) && logged == old(logged)
      ensures ok ==> View() == Release(sb, old(View()), b) && logged == old(logged) + {BitBlock(sb, b)}
    {
      hide Bit, PutBitInByte, InUse, DataStart, InRange;
      TestBit(sb, View(), b / BPB, b % BPB, false);
      var bp := data[sb.bmapstart + b / BPB];
      var bi := b % BPB;
      if !Bit(bp[bi / 8], bi % 8) {
        return false;
      }
      data := data[sb.bmapstart + b / BPB := bp[bi / 8 := PutBitInByte(bp[bi / 8], bi % 8, false)]];
      logged := logged + {BitBlock(sb, b)};
      ok := true;
    }

    /** Allocate a block for an empty slot and store its number there. */
    method FillSlot(s: Slot) returns (r: word)
      requires Ok({}) && IsSlot(View(), s) && At(View(), s) == 0
      requires s.k > INDIRECT ==> inodes[s.inum].addrs[INDIRECT] != 0
      modifies this`data, this`inodes, this`owner, this`logged
      ensures Ok({}) && Maps(sb, old(View()), View(), s.inum) && At(View(), s) == r
      ensures s.k > INDIRECT ==> inodes == old(inodes)
      ensures r == 0 ==> View() == old(View()) && logged == old(logged) && Full()
      ensures r != 0 ==>
                && r < sb.size && !InUse(sb, old(View()), r)
                && logged == old(logged) + {BitBlock(sb, r), r}
                             + if s.k > INDIRECT then {old(inodes[s.inum].addrs[INDIRECT])} else {}
      ensures Covered(sb, old(data), data, logged)
    {
      hide Valid, InUse, At, Attach, Allocate, Maps, Covered;
      ghost var v := View();
      RangeOf(sb, v, owner, {});
      var b := Balloc({});
      if b == 0 {
        MapsSame(sb, v, owner, s.inum);
        CoveredSame(sb, data, logged);
        return 0;
      }
      r := b;
      FillValid(sb, v, owner, s, r);
      AllocateValid(sb, v, owner, {}, r);
      AllocateCovered(sb, v, r, logged);
      ghost var d, l := data, logged;
      owner := owner[r := s];
      StoreSlot(s, r);
      CoveredThen(sb, v.data, d, data, l, logged);
    }

    /** bmap: the block that holds the bn-th block of inode i, allocated if it was missing; 0 if
        one of the two possible allocations found the disk full. */
    method Bmap(i: nat, bn: nat) returns (r: word)
      requires Ok({}) && i < |inodes| && bn < MAXFILE
      modifies this`data, this`inodes, this`owner, this`logged
      ensures Ok({}) && Maps(sb, old(View()), View(), i) && r == BlockAt(View(), i, bn)
      ensures r == 0 ==> Full()
      ensures old(BlockAt(View(), i, bn)) != 0 ==> View() == old(View()) && logged == old(logged)
      ensures old(logged) <= logged <= old(logged) + MapLog(sb, bn, r, inodes[i].addrs[INDIRECT])
      ensures Covered(sb, old(data), data, logged)
    {
      hide Valid, InUse, Maps, Keeps, Word, Covered;
      ghost var v := View();
      RangeOf(sb, v, owner, {});
      MapsSame(sb, v, owner, i);
      CoveredSame(sb, data, logged);
      if bn < NDIRECT {
        r := inodes[i].addrs[bn];
        if r == 0 {
          r := FillSlot(Slot(i, bn));
        }
        return;
      }
      r := inodes[i].addrs[INDIRECT];
      if r == 0 {
        r := FillSlot(Slot(i, INDIRECT));
        if r == 0 {
          return;
        }
      }
      ghost var w, lw := View(), logged;
      RangeOf(sb, w, owner, {});
      r := Word(data[r], bn - NDIRECT);
      if r == 0 {
        r := FillSlot(Slot(i, bn + 1));
        MapsTransitive(sb, v, w, View(), i);
        CoveredThen(sb, v.data, w.data, data, lw, logged);
      }
    }

    ghost predicate Full()
      reads this
      requires InRange(sb, View())
    {
      Filled(sb, View())
    }

    /** What holds between operations. */
    ghost predicate Good()
      reads this
    {
      Ok({}) && Solid(View()) && Synced(sb, View())
    }

    /** iupdate: copy the inode to its place in its inode block. */
    method Iupdate(i: nat)
      requires InRange(sb, View()) && i < |inodes|
      modifies this`data, this`logged
      ensures View() == Update(sb, old(View()), i) && logged == old(logged) + {InodeBlock(sb, i)}
      ensures Covered(sb, old(data), data, logged)
    {
      InodeBlockInRange(sb, i);
      var bp := data[InodeBlock(sb, i)];
      data := data[InodeBlock(sb, i) := Save(bp, i % IPB, inodes[i])];
      logged := logged + {InodeBlock(sb, i)};
    }

    /** Finish an operation on inode i by writing the inode back. */
    method Finish(i: nat)
      requires Ok({}) && Solid(View()) && i < |inodes| && SyncedBut(sb, View(), i)
      modifies this`data, this`logged
      ensures Good() && inodes == old(inodes) && logged == old(logged) + {InodeBlock(sb, i)}
      ensures forall j :: 0 <= j < |inodes| ==> Contents(View(), j) == Contents(old(View()), j)
      ensures SameBits(sb, old(View()), View()) && Covered(sb, old(data), data, logged)
    {
      hide Covered, Valid, Update, Keeps, Synced, SyncedBut, Contents, Solid, SameBits;
      ghost var v := View();
      RangeOf(sb, v, owner, {});
      UpdateSyncs(sb, v, i);
      UpdateKeeps(sb, v, owner, i);
      Iupdate(i);
      UpdateInodes(sb, v, i);
      KeepsFiles(v, View());
    }

    /** bread, either_copyin and log_write: the next m bytes go to block addr of the file. */
    method StoreChunk(i: nat, addr: word, src: seq<byte>, off: nat, tot: nat, m: nat, ghost v: Vol)
      requires Ok({}) && i < |inodes| && off + tot + m <= MAXBYTES && tot + m <= |src|
      requires (off + tot) % BSIZE + m <= BSIZE && (off + tot) / BSIZE < MAXFILE
      requires addr == BlockAt(View(), i, (off + tot) / BSIZE) && addr != 0
      requires Wrote(sb, v, View(), i, off, src[..tot])
      modifies this`data, this`logged
      ensures Ok({}) && Wrote(sb, v, View(), i, off, src[..tot + m])
      ensures logged == old(logged) + {addr} && Covered(sb, old(data), data, logged)
    {
      hide Valid, InUse, Wrote, At, Keeps, Patch, Covered;
      StoredOwned(sb, View(), owner, {}, i, (off + tot) / BSIZE);
      RangeOf(sb, View(), owner, {});
      assert src[..tot + m] == src[..tot] + src[tot..tot + m];
      WroteChunk(sb, v, View(), owner, i, off, src[..tot], src[tot..tot + m]);
      ghost var d := data;
      data := data[addr := Patch(data[addr], (off + tot) % BSIZE, src[tot..tot + m])];
      logged := logged + {addr};
      CoveredOne(sb, d, addr, data[addr], logged);
    }

    /** One turn of writei's loop: m bytes written, 0 if it stops. */
    method WriteTurn(i: nat, src: seq<byte>, off: nat, n: nat, tot: nat, ghost v: Vol)
      returns (m: nat, ghost touched: set<nat>)
      requires Ok({}) && i < |inodes| && off + n <= MAXBYTES && tot < n && tot <= |src|
      requires Wrote(sb, v, View(), i, off, src[..tot])
      modifies this`data, this`inodes, this`owner, this`logged
      ensures Ok({}) && tot + m <= |src|
      ensures m == 0 || m == Chunk(off + tot, n - tot)
      ensures m == 0 ==> Full() || tot + Chunk(off + tot, n - tot) > |src|
      ensures Wrote(sb, v, View(), i, off, src[..tot + m])
      ensures Grown(sb, old(logged), logged, touched, inodes[i].addrs[INDIRECT])
      ensures Covered(sb, old(data), data, logged)
      ensures IndirectLog(sb, old(inodes[i]).addrs[INDIRECT]) <= IndirectLog(sb, inodes[i].addrs[INDIRECT])
      ensures |touched| <= if old(BlockAt(View(), i, (off + tot) / BSIZE)) == 0 then 2 else 1
    {
      hide Valid, InUse, Wrote, At, Keeps, Patch, Covered, Grown, MapLog, IndirectLog, Touched;
      assert (off + tot) / BSIZE < MAXFILE;
      ghost var w, lw := View(), logged;
      RangeOf(sb, w, owner, {});
      var addr := Bmap(i, (off + tot) / BSIZE);
      WroteMaps(sb, v, w, View(), i, off, src[..tot]);
      ghost var before := BlockAt(w, i, (off + tot) / BSIZE);
      touched := Touched(sb, before, addr);
      TouchedByMap(sb, (off + tot) / BSIZE, lw, logged, before, addr, inodes[i].addrs[INDIRECT]);
      MapsIndirect(sb, w, View(), i);
      if addr == 0 {
        return 0, touched;
      }
      m := Chunk(off + tot, n - tot);
      if tot + m > |src| {
        return 0, touched;
      }
      ghost var d, l := data, logged;
      StoreChunk(i, addr, src, off, tot, m, v);
      CoveredThen(sb, w.data, d, data, l, logged);
    }

    /** writei's loop. */
    method WriteLoop(i: nat, src: seq<byte>, off: nat, n: nat) returns (tot: nat, ghost touched: set<nat>)
      requires Ok({}) && Solid(View()) && i < |inodes| && off <= inodes[i].size && off + n <= MAXBYTES
      modifies this`data, this`inodes, this`owner, this`logged
      ensures Ok({}) && tot <= n && tot <= |src| && Wrote(sb, old(View()), View(), i, off, src[..tot])
      ensures tot < n ==> Full() || tot + Chunk(off + tot, n - tot) > |src|
      ensures tot < n ==> AtBoundary(off, tot)
      ensures Grown(sb, old(logged), logged, touched, inodes[i].addrs[INDIRECT])
      ensures |touched| <= Budget(off, n) - 3 && Covered(sb, old(data), data, logged)
    {
      hide Valid, InUse, Wrote, At, Keeps, Maps, Solid, Full, IndirectLog, Chunk, Covered, Grown;
      hide Touches, Blocks, Budget, Progress, AtBoundary;
      ghost var v := View();
      ProgressStart(off, n);
      CoveredSame(sb, data, logged);
      GrownNothing(sb, logged, inodes[i].addrs[INDIRECT]);
      RangeOf(sb, v, owner, {});
      WroteNothing(sb, v, owner, i, off);
      assert src[..0] == [];
      tot, touched := 0, {};
      ghost var k := 0;
      while tot < n
        invariant Ok({}) && tot <= n && tot <= |src| && i < |inodes| && Wrote(sb, v, View(), i, off, src[..tot])
        invariant tot < n ==> Progress(off, tot, k)
        invariant tot < n ==> AtBoundary(off, tot)
        invariant k == 0 ==> View() == v
        invariant k <= Blocks(off, n) && |touched| <= Touches(off, k)
        invariant Grown(sb, old(logged), logged, touched, inodes[i].addrs[INDIRECT])
        invariant Covered(sb, old(data), data, logged)
        decreases n - tot
      {
        RangeOf(sb, View(), owner, {});
        BlockIndex(off, tot, n, k);
        ghost var there := BlockAt(View(), i, (off + tot) / BSIZE) != 0;
        if k == 0 && off % BSIZE != 0 {
          ProgressFirst(off, tot);
          FirstExists(v, i, off);
        }
        ghost var before := touched;
        ghost var t;
        var m;
        ghost var d, l, ind := data, logged, inodes[i].addrs[INDIRECT];
        m, t := WriteTurn(i, src, off, n, tot, v);
        WroteSizes(sb, v, View(), i, off, src[..tot + m]);
        GrownThen(sb, old(logged), l, logged, touched, t, ind, inodes[i].addrs[INDIRECT]);
        CoveredThen(sb, v.data, d, data, l, logged);
        touched := touched + t;
        TouchedNext(off, n, k, before, t, there);
        k := k + 1;
        if m == 0 {
          break;
        }
        ChunkEnd(off, tot, n, k);
        if tot + m < n {
          ProgressBoundary(off, tot + m, k);
        }
        tot := tot + m;
      }
      TouchedAll(off, n, k, touched);
    }

    /** writei: store src in file i from off on, as far as n, the readable part of the source and
        the free space allow; -1 if the range does not start in the file or does not fit one. */
    method Writei(i: nat, src: seq<byte>, off: word, n: word) returns (r: int, ghost touched: set<nat>)
      requires Good() && i < |inodes|
      modifies this`data, this`inodes, this`owner, this`logged
      ensures Good()
      ensures r == -1 <==> off > old(inodes[i]).size || off + n > MAXBYTES
      ensures r == -1 ==> View() == old(View()) && logged == old(logged)
      ensures r != -1 ==> 0 <= r <= n && r <= |src| && Spliced(old(View()), View(), i, off, src[..r])
      ensures 0 <= r < n ==> Full() || r + Chunk(off + r, n - r) > |src|
      ensures 0 <= r < n ==> AtBoundary(off, r)
      ensures old(logged) <= logged <= old(logged) + touched && |touched| <= Budget(off, n)
      ensures Covered(sb, old(data), data, logged)
    {
      hide Valid, Solid, Synced, Chunk, Spliced, Filled, Covered;
      CoveredSame(sb, data, logged);
      if off > inodes[i].size || (off + n) % 0x1_0000_0000 < off {
        return -1, {};
      }
      if (off + n) % 0x1_0000_0000 > MAXBYTES {
        return -1, {};
      }
      r, touched := WriteBody(i, src, off, n);
    }

    method WriteBody(i: nat, src: seq<byte>, off: nat, n: nat) returns (r: nat, ghost touched: set<nat>)
      requires Good() && i < |inodes| && off <= inodes[i].size && off + n <= MAXBYTES
      modifies this`data, this`inodes, this`owner, this`logged
      ensures Good() && r <= n && r <= |src| && Spliced(old(View()), View(), i, off, src[..r])
      ensures r < n ==> Full() || r + Chunk(off + r, n - r) > |src|
      ensures r < n ==> AtBoundary(off, r)
      ensures old(logged) <= logged <= old(logged) + touched && |touched| <= Budget(off, n)
      ensures Covered(sb, old(data), data, logged)
    {
      hide Covered;
      hide Valid, InRange, InUse, Wrote, Solid, Synced, SyncedBut, Chunk, Spliced, SameBits, SameKind;
      hide IndirectLog, Budget, Resized, Filled;
      ghost var v := View();
      RangeOf(sb, v, owner, {});
      ghost var t;
      r, t := WriteLoop(i, src, off, n);
      ghost var w, lw := View(), logged;
      RangeOf(sb, w, owner, {});
      WriteResize(sb, v, w, owner, i, off, src[..r]);
      SetSize(i, off + r);
      ghost var x := View();
      RangeOf(sb, x, owner, {});
      Finish(i);
      RangeOf(sb, View(), owner, {});
      CoveredThen(sb, v.data, w.data, data, lw, logged);
      SplicedThen(v, x, View(), i, off, src[..r]);
      if Filled(sb, w) {
        StillFilled(sb, w, x, View());
      }
      touched := t + IndirectLog(sb, inodes[i].addrs[INDIRECT]) + {InodeBlock(sb, i)};
      CountTouched(sb, t, inodes[i].addrs[INDIRECT], InodeBlock(sb, i));
    }

    method SetSize(i: nat, end: word)
      requires i < |inodes|
      modifies this`inodes
      ensures View() == Resized(old(View()), i, end)
      ensures i < |inodes| && inodes[i].addrs == old(inodes[i]).addrs
    {
      if end > inodes[i].size {
        inodes := inodes[i := inodes[i].(size := end)];
      }
    }

    /** filewrite: store n bytes of src from off0 on, in transactions of at most MAXCHUNK bytes;
        n if everything was stored, otherwise -1 and `off` tells how far it came. */
    method Filewrite(i: nat, off0: word, src: seq<byte>, n: int)
      returns (ret: int, off: word, ghost ops: seq<set<nat>>)
      requires Good() && i < |inodes|
      modifies this`data, this`inodes, this`owner, this`logged
      ensures Good()
      ensures off0 <= old(inodes[i]).size ==>
                off0 <= off && off - off0 <= |src| && Spliced(old(View()), View(), i, off0, src[..off - off0])
      ensures off0 > old(inodes[i]).size ==> View() == old(View()) && off == off0
      ensures n >= 0 && off - off0 == n ==> ret == n
      ensures !(n >= 0 && off - off0 == n) ==> ret == -1
      ensures forall k :: 0 <= k < |ops| ==> |ops[k]| <= MAXOPBLOCKS
      ensures n > 0 && ret == n ==> (|ops| - 1) * MAXCHUNK < n <= |ops| * MAXCHUNK
    {
      hide Valid, Solid, Synced, Chunk, Spliced, Filled, Budget, Covered, Full, AtBoundary, Chunked;
      var k := 0;
      assert Chunked(0, n, 0) by { NoChunk(n); }
      off, ops := off0, [];
      ghost var v := View();
      if off0 <= inodes[i].size {
        SplicedNothing(v, i, off0);
        assert src[..0] == [];
      }
      while k < n
        invariant 0 <= k && (n >= 0 ==> k <= n) && (n < 0 ==> k == 0) && k <= |src| && off == off0 + k
        invariant Good() && |inodes| == |v.inodes|
        invariant off0 <= v.inodes[i].size ==> Spliced(v, View(), i, off0, src[..k])
        invariant off0 > v.inodes[i].size ==> View() == v && k == 0
        invariant forall j :: 0 <= j < |ops| ==> |ops[j]| <= MAXOPBLOCKS
        invariant Chunked(k, n, |ops|)
        decreases n - k
      {
        var n1 := n - k;
        if n1 > MAXCHUNK {
          n1 := MAXCHUNK;
        }
        logged := {};
        ghost var w := View();
        var r;
        ghost var touched;
        r, touched := Writei(i, src[k..], off, n1);
        WriteFits(off, n1);
        SubsetSize(logged, touched);
        ops := ops + [logged];
        if r > 0 {
          off := off + r;
        }
        if r != -1 {
          Extended(v, w, View(), i, off0, src, k, r);
        }
        if r != n1 {
          break;
        }
        NextChunk(k, n, |ops| - 1);
        k := k + r;
      }
      if n > 0 && k == n {
        ChunksDone(n, |ops|);
      }
      ret := if k == n then n else -1;
    }

    /** readi: the n bytes of file i from off on, or as many as there are, for a destination of
        `avail` writable bytes; never allocates. */
    method Readi(i: nat, off: word, n: word, avail: nat) returns (r: int, dst: seq<byte>)
      requires Good() && i < |inodes|
      modifies this`data, this`inodes, this`owner, this`logged
      ensures Good() && View() == old(View()) && logged == old(logged)
      ensures var want := ReadLength(inodes[i].size, off, n);
              if want <= avail then r == want == |dst| else r == -1 && |dst| <= avail
      ensures off <= inodes[i].size ==> off + |dst| <= inodes[i].size && dst == Contents(View(), i)[off..off + |dst|]
    {
      hide Valid, NoHoles, Synced, Prefix, Indexable;
      if off > inodes[i].size || (off + n) % 0x1_0000_0000 < off {
        return 0, [];
      }
      if (off + n) % 0x1_0000_0000 > inodes[i].size {
        r, dst := ReadLoop(i, off, inodes[i].size - off, avail);
      } else {
        r, dst := ReadLoop(i, off, n, avail);
      }
    }

    method ReadLoop(i: nat, off: nat, len: nat, avail: nat) returns (r: int, dst: seq<byte>)
      requires Good() && i < |inodes| && off + len <= inodes[i].size
      modifies this`data, this`inodes, this`owner, this`logged
      ensures Good() && View() == old(View()) && logged == old(logged)
      ensures if len <= avail then r == len == |dst| else r == -1 && |dst| <= avail
      ensures off + |dst| <= inodes[i].size && dst == Contents(View(), i)[off..off + |dst|]
    {
      hide Valid, NoHoles, Synced, Prefix, Indexable, BlockAt, Filled, Maps, MapLog, Chunk, Progress;
      dst := [];
      ghost var v := View();
      ghost var c := Contents(v, i);
      ghost var k := 0;
      ReadStart(off);
      var tot := 0;
      while tot < len
        invariant 0 <= tot <= len && tot <= avail
        invariant Good() && View() == v && logged == old(logged)
        invariant dst == c[off..off + tot]
        invariant tot < len ==> Progress(off, tot, k)
        decreases len - tot
      {
        ReadIndex(v, i, off + tot);
        RangeOf(sb, v, owner, {});
        var addr := Bmap(i, (off + tot) / BSIZE);
        var m := Chunk(off + tot, len - tot);
        k := k + 1;
        ChunkEnd(off, tot, len, k);
        if tot + m > avail {
          return -1, dst;
        }
        ReadChunk(v, i, off, tot, m);
        var o := (off + tot) % BSIZE;
        dst := dst + data[addr][o..o + m];
        tot := tot + m;
      }
      r := tot;
    }

    /** Give a block back to the bitmap; the panic "freeing free block" does not happen. */
    method FreeSlot(s: Slot, ghost dead: set<Slot>)
      requires Valid(sb, View(), owner, {}, dead) && IsSlot(View(), s) && s !in dead && At(View(), s) != 0
      modifies this`data, this`owner, this`logged
      ensures Valid(sb, View(), owner, {}, dead + {s}) && OwnersBut(old(owner), owner, s.inum)
      ensures SameAt(old(View()), View()) && SameMeta(sb, old(View()), View())
      ensures SameFileBlocks(sb, old(View()), View())
      ensures Within(old(logged), logged, BitmapBlocks(sb)) && Covered(sb, old(data), data, logged)
    {
      hide InUse, At, SameAt, Release, Linked, Owned, Accounted, OwnersBut, Covered;
      ghost var v := View();
      var b := if s.k <= INDIRECT then inodes[s.inum].addrs[s.k]
          else Word(data[inodes[s.inum].addrs[INDIRECT]], s.k - INDIRECT - 1);
      SlotBlock(sb, v, s);
      GiveUp(sb, v, owner, {}, dead, s);
      GiveUpOwners(sb, v, owner, dead, s);
      owner := owner - {b};
      assert {} + {b} == {b} && {b} - {b} == {};
      ReleaseValid(sb, v, owner, {b}, dead + {s}, b);
      ReleaseBlocks(sb, v, b);
      var ok := Bfree(b);
      assert ok;
      BitInBitmap(sb, b);
      ReleaseCovered(sb, v, b, logged);
    }

    method FreeDirect(i: nat, k: nat)
      requires Ok({}) && i < |inodes| && k < NDIRECT
      modifies this`data, this`inodes, this`owner, this`logged
      ensures Ok({}) && Emptied(sb, old(View()), View(), old(owner), owner, i)
      ensures inodes[i].addrs == old(inodes[i]).addrs[k := 0]
      ensures Within(old(logged), logged, BitmapBlocks(sb)) && Covered(sb, old(data), data, logged)
    {
      hide At, Linked, Owned, Accounted, Covered;
      ghost var v := View();
      CoveredSame(sb, data, logged);
      if inodes[i].addrs[k] != 0 {
        SlotOfDirect(v, i, k);
        FreeSlot(Slot(i, k), {});
        assert {} + {Slot(i, k)} == {Slot(i, k)} && {Slot(i, k)} - {Slot(i, k)} == {};
        ClearValid(sb, View(), owner, {}, {Slot(i, k)}, Slot(i, k));
        inodes := inodes[i := inodes[i].(addrs := inodes[i].addrs[k := 0])];
      }
    }

    method FreeIndirect(i: nat)
      requires Ok({}) && i < |inodes|
      modifies this`data, this`inodes, this`owner, this`logged
      ensures Ok({}) && Emptied(sb, old(View()), View(), old(owner), owner, i)
      ensures inodes[i].addrs == old(inodes[i]).addrs[INDIRECT := 0]
      ensures Within(old(logged), logged, BitmapBlocks(sb)) && Covered(sb, old(data), data, logged)
    {
      hide At, Linked, Owned, Accounted, SameAt, Word, SameFileBlocks, DataStart, Covered, Within, BitmapBlocks;
      ghost var v, owner0 := View(), owner;
      WithinSame(logged, BitmapBlocks(sb));
      CoveredSame(sb, data, logged);
      EmptiedRefl(sb, v, owner, i);
      var ind := inodes[i].addrs[INDIRECT];
      if ind == 0 {
        return;
      }
      var bp := data[ind];
      ghost var dead: set<Slot> := {};
      SameAtRefl(v);
      for j := 0 to NINDIRECT
        invariant Valid(sb, View(), owner, {}, dead) && inodes == v.inodes && SameAt(v, View())
        invariant SameMeta(sb, v, View()) && SameFileBlocks(sb, v, View()) && OwnersBut(owner0, owner, i)
        invariant forall s :: s in dead ==> s.inum == i && INDIRECT < s.k <= INDIRECT + j
        invariant forall k :: INDIRECT < k <= INDIRECT + j && At(v, Slot(i, k)) != 0 ==> Slot(i, k) in dead
        invariant Within(old(logged), logged, BitmapBlocks(sb)) && Covered(sb, v.data, data, logged)
      {
        SlotOfEntry(sb, v, View(), i, j);
        if Word(bp, j) != 0 {
          ghost var w, l := View(), logged;
          FreeSlot(Slot(i, INDIRECT + 1 + j), dead);
          WithinThen(old(logged), l, logged, BitmapBlocks(sb));
          CoveredThen(sb, v.data, w.data, data, l, logged);
          SameAtTrans(v, w, View());
          SameBlocksTrans(sb, v, w, View());
          dead := dead + {Slot(i, INDIRECT + 1 + j)};
        }
      }
      SlotOfDirect(View(), i, INDIRECT);
      ghost var w, l := View(), logged;
      FreeSlot(Slot(i, INDIRECT), dead);
      WithinThen(old(logged), l, logged, BitmapBlocks(sb));
      CoveredThen(sb, v.data, w.data, data, l, logged);
      SameAtTrans(v, w, View());
      SameBlocksTrans(sb, v, w, View());
      dead := dead + {Slot(i, INDIRECT)};
      AllDead(v, View(), dead, i);
      ClearIndirectValid(sb, View(), owner, {}, dead, i);
      w := View();
      inodes := inodes[i := inodes[i].(addrs := inodes[i].addrs[INDIRECT := 0])];
      SameBlocksData(sb, v, w, View());
    }

    /** itrunc: file i becomes empty, its blocks free and no others, and every other file stays. */
    method Itrunc(i: nat)
      requires Good() && i < |inodes|
      modifies this`data, this`inodes, this`owner, this`logged
      ensures Good() && OthersKept(old(View()), View(), i) && Contents(View(), i) == []
      ensures SameKind(old(inodes[i]), inodes[i]) && forall k :: 0 <= k <= INDIRECT ==> inodes[i].addrs[k] == 0
      ensures Freed(sb, old(View()), View(), i)
      ensures Within(old(logged), logged, TruncBlocks(sb, i)) && Covered(sb, old(data), data, logged)
    {
      hide Covered;
      hide Linked, Owned, Accounted, Emptied, Solid, Synced, SyncedBut, Freed, OthersKept, Contents, SameBits, InUse;
      ghost var v, owner0 := View(), owner;
      EmptiedRefl(sb, v, owner, i);
      CoveredSame(sb, data, logged);
      for k := 0 to NDIRECT
        invariant Within(old(logged), logged, BitmapBlocks(sb)) && Covered(sb, v.data, data, logged)
        invariant Ok({}) && i < |inodes| && Emptied(sb, v, View(), owner0, owner, i)
        invariant forall j :: 0 <= j < k ==> inodes[i].addrs[j] == 0
      {
        ghost var w, ow, l := View(), owner, logged;
        FreeDirect(i, k);
        CoveredThen(sb, v.data, w.data, data, l, logged);
        EmptiedTrans(sb, v, w, View(), owner0, ow, owner, i);
      }
      ghost var w, ow, l := View(), owner, logged;
      FreeIndirect(i);
      CoveredThen(sb, v.data, w.data, data, l, logged);
      EmptiedTrans(sb, v, w, View(), owner0, ow, owner, i);
      TruncDone(sb, v, View(), owner0, owner, i);
      TruncFreed(sb, v, View(), owner0, owner, i);
      w, l := View(), logged;
      inodes := inodes[i := inodes[i].(size := 0)];
      ghost var x := View();
      Finish(i);
      CoveredThen(sb, v.data, w.data, data, l, logged);
      FilesTransitive(v, x, View(), i);
      FreedThen(sb, v, w, x, View(), i);
    }

    /** Write a block number into the inode or into its indirect block. */
    method StoreSlot(s: Slot, r: word)
      requires InRange(sb, View()) && IsSlot(View(), s) && (s.k > INDIRECT ==> inodes[s.inum].addrs[INDIRECT] != 0)
      modifies this`data, this`inodes, this`logged
      ensures View() == Attach(old(View()), s, r)
      ensures logged == old(logged) + if s.k > INDIRECT then {old(inodes[s.inum].addrs[INDIRECT])} else {}
      ensures Covered(sb, old(data), data, logged)
    {
      var ip := inodes[s.inum];
      if s.k <= INDIRECT {
        inodes := inodes[s.inum := ip.(addrs := ip.addrs[s.k := r])];
      } else {
        var ind := ip.addrs[INDIRECT];
        data := data[ind := SetWord(data[ind], s.k - INDIRECT - 1, r)];
        logged := logged + {ind};
      }
    }
  }

  /** Block 0 is metadata, so a free block is never block 0. */
  lemma NotFirst(sb: Super, v: Vol, owner: map<nat, Slot>, loose: set<nat>, r: nat)
    requires Valid(sb, v, owner, loose, {}) && r < sb.size && !InUse(sb, v, r)
    ensures r != 0
  {
    AllocateValid(sb, v, owner, loose, r);
    DataIsNotZero(sb, r);
  }

  lemma UpdateInodes(sb: Super, v: Vol, i: nat)
    requires InRange(sb, v) && i < |v.inodes|
    ensures Update(sb, v, i).inodes == v.inodes
    ensures InRange(sb, Update(sb, v, i)) && SameBits(sb, v, Update(sb, v, i))
  {
    hide InUse, Save;
    InodeBlockInRange(sb, i);
    SameUse(sb, v, Update(sb, v, i));
  }

  /** After so many full transactions, k of n bytes are written. */
  predicate Chunked(k: int, n: int, ops: nat) {
    && (n > 0 ==> k == if ops * MAXCHUNK < n then ops * MAXCHUNK else n)
    && (ops > 0 ==> (ops - 1) * MAXCHUNK < n)
  }

  lemma NoChunk(n: int)
    ensures Chunked(0, n, 0)
  {
  }

  lemma ChunksDone(n: int, ops: nat)
    requires Chunked(n, n, ops) && n > 0
    ensures (ops - 1) * MAXCHUNK < n <= ops * MAXCHUNK
  {
  }

  lemma NextChunk(k: int, n: int, ops: nat)
    requires Chunked(k, n, ops) && 0 <= k < n
    ensures Chunked(k + if n - k > MAXCHUNK then MAXCHUNK else n - k, n, ops + 1)
  {
  }

  lemma Extended(v: Vol, w: Vol, x: Vol, i: nat, off: nat, src: seq<byte>, k: nat, r: nat)
    requires Solid(v) && Solid(w) && Solid(x) && i < |v.inodes| == |w.inodes| && k + r <= |src|
    requires Spliced(v, w, i, off, src[..k]) && Spliced(w, x, i, off + k, src[k..][..r])
    ensures |x.inodes| == |v.inodes| && Spliced(v, x, i, off, src[..k + r])
  {
    hide Solid, Spliced;
    assert src[k..][..r] == src[k..k + r] && src[..k + r] == src[..k] + src[k..k + r];
    SplicedTwice(v, w, x, i, off, src[..k], src[k..k + r]);
  }

  /** The log took in no more than `extra`. */
  ghost predicate Within(before: set<nat>, now: set<nat>, extra: set<nat>) {
    before <= now <= before + extra
  }

  lemma WithinSame(a: set<nat>, extra: set<nat>)
    ensures Within(a, a, extra)
  {
  }

  lemma WithinThen(a: set<nat>, b: set<nat>, c: set<nat>, extra: set<nat>)
    requires Within(a, b, extra) && Within(b, c, extra)
    ensures b <= c && Within(a, c, extra)
  {
  }

  function BitmapBlocks(sb: Super): set<nat> {
    Interval(sb.bmapstart, sb.size / BPB + 1)
  }

  lemma BitInBitmap(sb: Super, b: nat)
    requires SuperOk(sb) && b < sb.size
    ensures BitBlock(sb, b) in BitmapBlocks(sb)
  {
    assert b / BPB <= sb.size / BPB;
  }

  /** What itrunc may log: bitmap blocks and the inode's block. */
  function TruncBlocks(sb: Super, i: nat): set<nat> {
    BitmapBlocks(sb) + {InodeBlock(sb, i)}
  }

  /** A truncation fits a transaction if and only if there are fewer than MAXOPBLOCKS bitmap blocks. */
  lemma TruncFits(sb: Super, i: nat)
    requires SuperOk(sb) && i < sb.ninodes
    ensures |TruncBlocks(sb, i)| == sb.size / BPB + 2
    ensures |TruncBlocks(sb, i)| <= MAXOPBLOCKS <==> sb.size / BPB + 1 < MAXOPBLOCKS
  {
    InodeBlockInRange(sb, i);
    assert InodeBlock(sb, i) !in BitmapBlocks(sb);
  }

  /** The log took in no more than `touched` and the indirect block's own blocks. */
  ghost predicate Grown(sb: Super, before: set<nat>, now: set<nat>, touched: set<nat>, ind: nat) {
    before <= now <= before + touched + IndirectLog(sb, ind)
  }

  lemma GrownNothing(sb: Super, logged: set<nat>, ind: nat)
    ensures Grown(sb, logged, logged, {}, ind)
  {
  }

  lemma GrownThen(sb: Super, a: set<nat>, b: set<nat>, c: set<nat>, t: set<nat>, u: set<nat>, i: nat, j: nat)
    requires Grown(sb, a, b, t, i) && Grown(sb, b, c, u, j) && IndirectLog(sb, i) <= IndirectLog(sb, j)
    ensures b <= c && Grown(sb, a, c, t + u, j)
  {
  }

  lemma ProgressStart(off: nat, n: nat)
    ensures Progress(off, 0, 0) && AtBoundary(off, 0) && Touches(off, 0) == 0
  {
  }

  lemma ProgressFirst(off: nat, tot: nat)
    requires Progress(off, tot, 0)
    ensures tot == 0
  {
  }

  lemma ProgressBoundary(off: nat, tot: nat, k: nat)
    requires Progress(off, tot, k)
    ensures AtBoundary(off, tot)
  {
  }

  lemma TouchedNext(off: nat, n: nat, k: nat, before: set<nat>, t: set<nat>, there: bool)
    requires |before| <= Touches(off, k) && |t| <= (if there then 1 else 2) && k < Blocks(off, n)
    requires k == 0 && off % BSIZE != 0 ==> there
    ensures |before + t| <= Touches(off, k + 1) && k + 1 <= Blocks(off, n)
  {
    CountUnion(before, t);
  }

  lemma TouchedAll(off: nat, n: nat, k: nat, touched: set<nat>)
    requires |touched| <= Touches(off, k) && k <= Blocks(off, n)
    ensures |touched| <= Budget(off, n) - 3
  {
  }

  lemma CountUnion(a: set<nat>, b: set<nat>)
    ensures |a + b| <= |a| + |b|
  {
    assert a + b == a + (b - a);
    SubsetSize(b - a, b);
  }

  lemma CountTouched(sb: Super, t: set<nat>, ind: nat, b: nat)
    ensures |t + IndirectLog(sb, ind) + {b}| <= |t| + 3
  {
    CountUnion(t, IndirectLog(sb, ind));
    CountUnion(t + IndirectLog(sb, ind), {b});
  }

  /** What one turn of a write touches, apart from the indirect block. */
  ghost function Touched(sb: Super, before: nat, addr: nat): set<nat> {
    if addr == 0 then {} else if before == 0 then {addr, BitBlock(sb, addr)} else {addr}
  }

  lemma TouchedByMap(sb: Super, bn: nat, l: set<nat>, l': set<nat>, before: nat, addr: nat, ind: nat)
    requires l <= l' <= l + MapLog(sb, bn, addr, ind) && (before != 0 ==> l' == l)
    ensures Grown(sb, l, l', Touched(sb, before, addr), ind)
    ensures addr != 0 ==> Grown(sb, l, l' + {addr}, Touched(sb, before, addr), ind)
    ensures |Touched(sb, before, addr)| <= if before == 0 then 2 else 1
  {
  }

  lemma MapsIndirect(sb: Super, v: Vol, w: Vol, i: nat)
    requires Maps(sb, v, w, i) && i < |v.inodes| == |w.inodes|
    ensures IndirectLog(sb, v.inodes[i].addrs[INDIRECT]) <= IndirectLog(sb, w.inodes[i].addrs[INDIRECT])
  {
  }

  ghost function IndirectLog(sb: Super, ind: nat): set<nat> {
    if ind == 0 then {} else {ind, BitBlock(sb, ind)}
  }

  /** The blocks that mapping a block may log: the block, its bitmap block, and the same for the
      indirect block. */
  ghost function MapLog(sb: Super, bn: nat, r: nat, ind: nat): set<nat> {
    (if r == 0 then {} else {r, BitBlock(sb, r)})
    + if bn < NDIRECT || ind == 0 then {} else {ind, BitBlock(sb, ind)}
  }

  lemma AllocateMeta(sb: Super, v: Vol, r: nat)
    requires InRange(sb, v) && IsData(sb, r)
    ensures SameMeta(sb, v, Allocate(sb, v, r))
  {
    BitInRange(sb, r);
  }

  lemma AttachMeta(sb: Super, v: Vol, s: Slot, r: word)
    requires InRange(sb, v) && IsSlot(v, s) && At(v, s) == 0
    requires s.k > INDIRECT ==> v.inodes[s.inum].addrs[INDIRECT] != 0
    ensures var w := Attach(v, s, r);
            && SameMeta(sb, v, w)
            && w.inodes == v.inodes[s.inum := v.inodes[s.inum].(addrs := w.inodes[s.inum].addrs)]
            && (v.inodes[s.inum].addrs[INDIRECT] != 0 ==>
                  w.inodes[s.inum].addrs[INDIRECT] == v.inodes[s.inum].addrs[INDIRECT])
            && (s.k > INDIRECT ==> w.inodes == v.inodes)
  {
    hide Word, SetWord;
  }

  lemma FillMaps(sb: Super, v: Vol, w: Vol, s: Slot, r: word)
    requires InRange(sb, v) && InRange(sb, w) && IsSlot(w, s) && At(w, s) == 0 && w.inodes == v.inodes
    requires s.k > INDIRECT ==> v.inodes[s.inum].addrs[INDIRECT] != 0
    requires SameMeta(sb, v, w) && Keeps(v, Attach(w, s, r))
    ensures Maps(sb, v, Attach(w, s, r), s.inum)
    ensures s.k > INDIRECT ==> Attach(w, s, r).inodes == v.inodes
  {
    hide At, Attach, Keeps, DataStart;
    AttachMeta(sb, w, s, r);
  }

  /** Allocating a block for an empty slot keeps ownership in order and all files as they are. */
  lemma FillValid(sb: Super, v: Vol, owner: map<nat, Slot>, s: Slot, r: word)
    requires Valid(sb, v, owner, {}, {}) && IsSlot(v, s) && At(v, s) == 0 && r < sb.size && !InUse(sb, v, r)
    requires s.k > INDIRECT ==> v.inodes[s.inum].addrs[INDIRECT] != 0
    ensures var w := Allocate(sb, v, r);
            && IsSlot(w, s) && (s.k > INDIRECT ==> w.inodes[s.inum].addrs[INDIRECT] < |w.data|)
            && Valid(sb, Attach(w, s, r), owner[r := s], {}, {}) && Maps(sb, v, Attach(w, s, r), s.inum)
            && At(Attach(w, s, r), s) == r && (s.k > INDIRECT ==> Attach(w, s, r).inodes == v.inodes)
  {
    hide InUse, At, Attach, Keeps, Maps, Linked, Owned, Accounted, DataStart, SameMeta, Mark;
    AllocateValid(sb, v, owner, {}, r);
    AllocateKeeps(sb, v, owner, {}, r);
    AllocateAt(sb, v, owner, {}, r, s);
    AllocateMeta(sb, v, r);
    var w := Allocate(sb, v, r);
    assert {} + {r} == {r};
    AttachValid(sb, w, owner, {r}, s, r);
    AttachAt(sb, w, owner, {r}, s, r, s);
    AttachKeeps(sb, w, owner, {r}, s, r);
    KeepsTransitive(v, w, Attach(w, s, r));
    FillMaps(sb, v, w, s, r);
    assert {r} - {r} == {};
  }
}
