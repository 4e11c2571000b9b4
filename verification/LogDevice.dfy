/** The logging layer (kernel/log.c) as it runs: loops over the logged blocks that read and
    write them through the buffer cache. Each method states which block writes it issues. */
module LogDevice {
  import opened Bytes
  import opened Params
  import opened Sets
  import opened Log
  import opened BufferCache
  import opened Coherence
  import R = Reservation

  /** Nobody references a buffer except through the pins of logged blocks. */
  ghost predicate Quiet(c: Cache, pins: set<nat>, latest: seq<Block>, disk: Disk) {
    Coherent(c, Use(Unheld(), pins, {}, latest), disk)
  }

  /** A logged block is resident, so reading it never needs another buffer. */
  lemma PinnedIsChosen(c: Cache, u: Use, disk: Disk, b: nat)
    requires Coherent(c, u, disk) && b in u.pins
    ensures Choose(c, b).Some?
  {
    ChooseSpec(c, b);
    assert Resident(c, b);
  }

  function BlocksOf(buf: seq<Buf>): (r: seq<nat>)
    ensures |r| == |buf| && forall i :: 0 <= i < |buf| ==> r[i] == buf[i].blockno
  {
    seq(|buf|, i requires 0 <= i < |buf| => buf[i].blockno)
  }

  /** When every buffer is pinned there are at least NBUF pins. */
  lemma AllPinned(c: Cache, pins: set<nat>)
    requires Shape(c) && Unique(c.buf) && forall i :: 0 <= i < NBUF ==> Pinned(c.buf[i], pins)
    ensures |pins| >= NBUF
  {
    var blocks := BlocksOf(c.buf);
    assert Distinct(blocks);
    ElementsSize(blocks);
    assert Elements(blocks) <= pins;
    SubsetSize(Elements(blocks), pins);
  }

  /** An unpinned buffer leaves too few others for NBUF pins. */
  lemma UnpinnedLeavesTooFew(c: Cache, pins: set<nat>, i: nat)
    requires Shape(c) && i < NBUF && !Pinned(c.buf[i], pins)
    requires forall b :: b in pins ==> Resident(c, b)
    ensures |pins| < NBUF
  {
    var others := BlocksOf(c.buf[..i] + c.buf[i + 1..]);
    ElementsSize(others);
    forall p | p in pins
      ensures p in Elements(others)
    {
      assert Resident(c, p);
      var j :| 0 <= j < NBUF && Caches(c.buf[j], p) && c.buf[j].valid;
      assert others[if j < i then j else j - 1] == p;
    }
    SubsetSize(pins, Elements(others));
  }

  /** When all buffers but one are pinned there are at least NBUF - 1 pins. */
  lemma OthersPinned(c: Cache, pins: set<nat>, i: nat)
    requires Shape(c) && Unique(c.buf) && i < NBUF
    requires forall k :: 0 <= k < NBUF && k != i ==> Pinned(c.buf[k], pins)
    ensures |pins| >= NBUF - 1
  {
    var blocks := BlocksOf(c.buf[..i] + c.buf[i + 1..]);
    assert Distinct(blocks);
    ElementsSize(blocks);
    assert Elements(blocks) <= pins;
    SubsetSize(Elements(blocks), pins);
  }

  /** While one buffer is in use, two free of pins are enough. */
  lemma SpareBuffer(c: Cache, u: Use, disk: Disk, b: nat, i: nat)
    requires Coherent(c, u, disk) && i < NBUF && |u.pins| < NBUF - 1
    requires forall k :: 0 <= k < NBUF && k != i ==> u.held[k] == 0
    ensures Choose(c, b).Some?
  {
    ChooseSpec(c, b);
    if forall k :: 0 <= k < NBUF && k != i ==> Pinned(c.buf[k], u.pins) {
      OthersPinned(c, u.pins, i);
      assert false;
    }
  }

  /** A referenced buffer keeps its block, and its contents if it has any, when another block is read. */
  lemma HeldStays(c: Cache, u: Use, disk: Disk, b: nat)
    requires Coherent(c, u, disk) && b < |disk| && Choose(c, b).Some?
    ensures var i := Choose(c, b).value;
            && i < NBUF
            && var c' := Fill(Claim(c, i, b), i, disk);
            && SameBlocks(c.buf, c'.buf, u.held)
            && forall j :: 0 <= j < NBUF && u.held[j] > 0 && c.buf[j].valid ==>
                c'.buf[j] == c.buf[j].(refcnt := c'.buf[j].refcnt)
  {
    ChooseSpec(c, b);
  }

  /** Buffers in use keep their blocks. */
  predicate SameBlocks(b: seq<Buf>, b': seq<Buf>, held: seq<nat>) {
    && |b| == |b'| == |held|
    && forall i :: 0 <= i < |b| && held[i] > 0 ==> b'[i].dev == b[i].dev && b'[i].blockno == b[i].blockno
  }

  // when bget panics

  predicate InLog(l: Layout, b: nat) {
    l.start <= b < l.start + l.size
  }

  /** No process but the log itself uses the log's blocks. */
  predicate LogIsPrivate(l: Layout, c: Cache, held: seq<nat>)
    requires Shape(c) && |held| == NBUF
  {
    forall i :: 0 <= i < NBUF && held[i] > 0 ==> !(c.buf[i].dev == ROOTDEV && InLog(l, c.buf[i].blockno))
  }

  /** Some buffer is neither held nor pinned. */
  predicate Spare(c: Cache, held: seq<nat>, pins: set<nat>)
    requires Shape(c) && |held| == NBUF
  {
    exists i :: 0 <= i < NBUF && held[i] == 0 && !Pinned(c.buf[i], pins)
  }

  /** So a block of the log can be read exactly if there is a spare buffer. */
  lemma LogBlockIff(c: Cache, u: Use, disk: Disk, l: Layout, b: nat)
    requires Coherent(c, u, disk) && LogIsPrivate(l, c, u.held) && InLog(l, b) && b !in u.pins
    ensures Choose(c, b).Some? <==> Spare(c, u.held, u.pins)
    ensures Choose(c, b).Some? ==> Choose(c, b).value < NBUF && u.held[Choose(c, b).value] == 0
  {
    NoBufferIff(c, u, disk, b);
    ChooseSpec(c, b);
  }

  /** With no other holders there is a spare buffer exactly if fewer than NBUF blocks are pinned. */
  lemma SpareIffRoom(c: Cache, pins: set<nat>, latest: seq<Block>, disk: Disk)
    requires Quiet(c, pins, latest, disk)
    ensures Spare(c, Unheld(), pins) <==> |pins| < NBUF
  {
    if i :| 0 <= i < NBUF && !Pinned(c.buf[i], pins) {
      assert Unheld()[i] == 0;
      UnpinnedLeavesTooFew(c, pins, i);
    } else {
      AllPinned(c, pins);
    }
  }

  /** Outside the log, what readers see is what the disk holds. */
  lemma UnpinnedOnDisk(c: Cache, u: Use, disk: Disk, b: nat)
    requires Coherent(c, u, disk) && u.dirty == {} && b < |disk| && b !in u.pins
    ensures |u.latest| == |disk| && u.latest[b] == disk[b]
  {
    assert !IsDirty(c, u, b);
  }

  /** The contents of the listed blocks. */
  function Contents(d: Disk, h: seq<nat>): (r: seq<Block>)
    requires forall i :: 0 <= i < |h| ==> h[i] < |d|
    ensures |r| == |h| && forall i :: 0 <= i < |h| ==> r[i] == d[h[i]]
  {
    seq(|h|, i requires 0 <= i < |h| => d[h[i]])
  }

  lemma ApplySame(t: Disk, h: seq<nat>, data: seq<Block>)
    requires (forall i :: 0 <= i < |h| ==> h[i] < |t|) && Distinct(h) && data == Contents(t, h)
    ensures Apply(t, h, data) == t
  {
    ApplyAt(t, h, data);
    forall b | 0 <= b < |t|
      ensures Apply(t, h, data)[b] == t[b]
    {
      if b in h {
        var i :| 0 <= i < |h| && h[i] == b;
      }
    }
  }

  /** After a commit readers see every home block as before. */
  lemma CommitShowsNothing(l: Layout, t: Disk, h: seq<word>, data: seq<Block>)
    requires Fits(l, t) && Entries(l, |t|, h) && data == Contents(t, h)
    ensures SameHome(l, CommitEnd(l, t, h, data), t)
  {
    hide CommitEnd;
    CommitAfterHead(l, t, h, data, 2 * |h| + 2);
    ApplySame(t, h, data);
  }

  /** With nothing logged, the disk holds what readers see. */
  lemma HomeOnDisk(c: Cache, held: seq<nat>, latest: Disk, disk: Disk, l: Layout)
    requires Coherent(c, Use(held, {}, {}, latest), disk)
    ensures SameHome(l, disk, latest)
  {
    forall b: nat | Home(l, |disk|, b)
      ensures disk[b] == latest[b]
    {
      UnpinnedOnDisk(c, Use(held, {}, {}, latest), disk, b);
    }
  }

  lemma AllOnDisk(c: Cache, latest: Disk, disk: Disk)
    requires Quiet(c, {}, latest, disk)
    ensures latest == disk
  {
    hide Coherent;
    QuietSizes(c, latest, disk);
    forall b: nat | b < |disk|
      ensures latest[b] == disk[b]
    {
      UnpinnedOnDisk(c, Use(Unheld(), {}, {}, latest), disk, b);
    }
  }

  lemma QuietSizes(c: Cache, latest: Disk, disk: Disk)
    requires Quiet(c, {}, latest, disk)
    ensures |latest| == |disk|
  {
  }

  class LogDev {
    const bc: Bcache
    const l: Layout
    var lh: seq<word>
    var outstanding: nat
    var committing: bool
    /** The contents that readers see, block by block. */
    ghost var latest: seq<Block>

    ghost predicate Using(held: seq<nat>, pins: set<nat>)
      reads this`latest, bc
    {
      bc.Valid() && Fits(l, bc.disk) && |latest| == |bc.disk| &&
          Coherent(bc.View(), Use(held, pins, {}, latest), bc.disk)
    }

    /** Between two uses by the log: `others` counts the references of other processes. */
    ghost predicate Shared(others: seq<nat>, pins: set<nat>)
      reads this`latest, bc
    {
      Using(others, pins) && |others| == NBUF && LogIsPrivate(l, bc.View(), others)
    }

    ghost predicate HasSpare(others: seq<nat>, pins: set<nat>)
      requires bc.Valid() && |others| == NBUF
      reads bc
    {
      Spare(bc.View(), others, pins)
    }

    constructor (bc: Bcache, l: Layout)
      requires bc.Valid() && Fits(l, bc.disk)
      requires forall i :: 0 <= i < NBUF ==> bc.buf[i] == Buf(0, 0, false, 0, ZeroBlock())
      ensures this.bc == bc && this.l == l && lh == [] && outstanding == 0 && !committing
      ensures latest == bc.disk && Shared(Unheld(), {})
    {
      this.bc := bc;
      this.l := l;
      lh := [];
      outstanding := 0;
      committing := false;
      latest := bc.disk;
    }

    /** bread by the log: a held buffer with the latest contents of the block. */
    method Read(b: nat, ghost held: seq<nat>, ghost pins: set<nat>) returns (r: Option<nat>)
      requires Using(held, pins) && |held| == NBUF && b < |bc.disk|
      modifies bc`buf
      ensures r == old(Choose(bc.View(), b))
      ensures r.None? ==> bc.View() == old(bc.View())
      ensures r.Some? ==>
                && r.value < NBUF
                && Using(held[r.value := held[r.value] + 1], pins)
                && Caches(bc.buf[r.value], b) && bc.buf[r.value].valid && bc.buf[r.value].data == latest[b]
      ensures forall j :: 0 <= j < NBUF && held[j] > 0 && old(bc.buf[j]).valid ==>
                bc.buf[j] == old(bc.buf[j]).(refcnt := bc.buf[j].refcnt)
      ensures SameBlocks(old(bc.buf), bc.buf, held)
    {
      hide Coherent, Choose;
      ghost var u := Use(held, pins, {}, latest);
      ghost var c := bc.View();
      r := bc.Bread(b);
      if r.Some? {
        HeldStays(c, u, bc.disk, b);
        GetCoherent(c, u, bc.disk, b);
        FillCoherent(Claim(c, r.value, b), Hold(u, r.value), bc.disk, r.value);
      }
    }

    /** brelse by the log. */
    method Release(i: nat, ghost held: seq<nat>, ghost pins: set<nat>)
      requires Using(held, pins) && i < NBUF && |held| == NBUF && held[i] > 0
      modifies bc`buf, bc`next, bc`prev, bc`order
      ensures Using(held[i := held[i] - 1], pins)
      ensures forall j :: 0 <= j < NBUF ==> bc.buf[j] == old(bc.buf[j]).(refcnt := bc.buf[j].refcnt)
    {
      DropCoherent(bc.View(), Use(held, pins, {}, latest), bc.disk, i);
      bc.Brelse(i);
    }

    /** Put new contents in a held buffer and write it to disk. */
    method Overwrite(i: nat, data: Block, ghost held: seq<nat>, ghost pins: set<nat>)
      requires Using(held, pins) && i < NBUF && bc.buf[i].valid && bc.buf[i].dev == ROOTDEV
      modifies bc`buf, bc`disk, bc`history, this`latest
      ensures Using(held, pins)
      ensures bc.buf == old(bc.buf)[i := old(bc.buf[i]).(data := data)]
      ensures bc.disk == old(bc.disk)[old(bc.buf[i].blockno) := data]
      ensures latest == old(latest)[old(bc.buf[i].blockno) := data]
      ensures bc.history == old(bc.history) + [bc.disk]
    {
      WriteThroughCoherent(bc.View(), Use(held, pins, {}, latest), bc.disk, i, data);
      latest := latest[bc.buf[i].blockno := data];
      bc.buf := bc.buf[i := bc.buf[i].(data := data)];
      bc.Bwrite(i);
    }

    /** Read a log slot and then a home block, both with their latest contents. */
    method ReadBoth(slot: nat, home: nat, ghost others: seq<nat>, ghost pins: set<nat>) returns (i: nat, j: nat,
                    ok: bool)
      requires Shared(others, pins) && slot < |bc.disk| && home < |bc.disk| && InLog(l, slot) && !InLog(l, home)
      requires slot !in pins
      requires home in pins || (others == Unheld() && |pins| < NBUF - 1)
      modifies bc`buf
      ensures ok <==> old(HasSpare(others, pins))
      ensures ok ==>
                && i < NBUF && j < NBUF && i != j && others[i] == 0 && Using(others[i := 1][j := others[j] + 1], pins)
                && Caches(bc.buf[i], slot) && bc.buf[i].valid && bc.buf[i].data == latest[slot]
                && Caches(bc.buf[j], home) && bc.buf[j].valid && bc.buf[j].data == latest[home]
                && SameBlocks(old(bc.buf), bc.buf, others)
    {
      hide Coherent, Choose, Spare;
      i, j := 0, 0;
      LogBlockIff(bc.View(), Use(others, pins, {}, latest), bc.disk, l, slot);
      var lbuf := Read(slot, others, pins);
      if lbuf.None? {
        return 0, 0, false;
      }
      i := lbuf.value;
      ghost var held := others[i := 1];
      if home in pins {
        PinnedIsChosen(bc.View(), Use(held, pins, {}, latest), bc.disk, home);
      } else {
        SpareBuffer(bc.View(), Use(held, pins, {}, latest), bc.disk, home, i);
      }
      var dbuf := Read(home, held, pins);
      j := dbuf.value;
      ok := true;
    }

    /** One turn of write_log: copy a cached block to its log slot. False is a panic in bget. */
    method CopyToSlot(tail: nat, ghost others: seq<nat>, ghost pins: set<nat>) returns (ok: bool)
      requires Shared(others, pins) && tail < |lh| && Entries(l, |bc.disk|, lh) && pins == Elements<nat>(lh)
      modifies bc, this`latest
      ensures ok <==> old(HasSpare(others, pins))
      ensures ok ==>
                && Shared(others, pins) && HasSpare(others, pins)
                && bc.disk == old(bc.disk)[l.start + 1 + tail := old(latest)[lh[tail]]]
                && latest == old(latest)[l.start + 1 + tail := old(latest)[lh[tail]]]
                && bc.history == old(bc.history) + [bc.disk]
    {
      hide Coherent, Choose;
      var to, from;
      to, from, ok := ReadBoth(l.start + 1 + tail, lh[tail], others, pins);
      if ok {
        Overwrite(to, bc.buf[from].data, others[to := 1][from := others[from] + 1], pins);
        ReleaseBoth(to, from, others, pins);
        assert others[to] == 0 && !Pinned(bc.buf[to], pins);
      }
    }

    /** One turn of install_trans: copy a log slot to its home block, and drop the block's pin
        unless this is recovery. */
    method InstallOne(tail: nat, recovering: bool, ghost others: seq<nat>, ghost pins: set<nat>) returns (ok: bool)
      requires Shared(others, pins) && tail < |lh| && Entries(l, |bc.disk|, lh)
      requires if recovering then pins == {} && others == Unheld() else lh[tail] in pins && pins <= Elements<nat>(lh)
      modifies bc, this`latest
      ensures ok <==> old(HasSpare(others, pins))
      ensures ok ==>
                && Shared(others, if recovering then {} else pins - {lh[tail]})
                && HasSpare(others, if recovering then {} else pins - {lh[tail]})
                && bc.disk == old(bc.disk)[lh[tail] := old(latest)[l.start + 1 + tail]]
                && latest == old(latest)[lh[tail] := old(latest)[l.start + 1 + tail]]
                && bc.history == old(bc.history) + [bc.disk]
    {
      hide Coherent, Choose;
      var lbuf, dbuf;
      lbuf, dbuf, ok := ReadBoth(l.start + 1 + tail, lh[tail], others, pins);
      if ok {
        ghost var both := others[lbuf := 1][dbuf := others[dbuf] + 1];
        Overwrite(dbuf, bc.buf[lbuf].data, both, pins);
        if !recovering {
          UnpinHome(dbuf, both, pins);
        }
        ghost var left := if recovering then {} else pins - {lh[tail]};
        ReleaseBoth(lbuf, dbuf, others, left);
        assert others[lbuf] == 0 && !Pinned(bc.buf[lbuf], left);
      }
    }

    /** bunpin by the log. */
    method UnpinHome(i: nat, ghost held: seq<nat>, ghost pins: set<nat>)
      requires Using(held, pins) && i < NBUF && Pinned(bc.buf[i], pins)
      requires bc.disk[bc.buf[i].blockno] == latest[bc.buf[i].blockno]
      modifies bc`buf
      ensures Using(held, pins - {old(bc.buf[i].blockno)})
      ensures forall j :: 0 <= j < NBUF ==> bc.buf[j] == old(bc.buf[j]).(refcnt := bc.buf[j].refcnt)
    {
      UnpinCoherent(bc.View(), Use(held, pins, {}, latest), bc.disk, i);
      bc.Bunpin(i);
    }

    method ReleaseBoth(i: nat, j: nat, ghost others: seq<nat>, ghost pins: set<nat>)
      requires i < NBUF && j < NBUF && i != j && |others| == NBUF && others[i] == 0
      requires Using(others[i := 1][j := others[j] + 1], pins)
      modifies bc`buf, bc`next, bc`prev, bc`order
      ensures Using(others, pins)
      ensures forall k :: 0 <= k < NBUF ==> bc.buf[k] == old(bc.buf[k]).(refcnt := bc.buf[k].refcnt)
    {
      hide Coherent, Choose;
      ghost var both := others[i := 1][j := others[j] + 1];
      Release(i, both, pins);
      assert both[i := 0] == others[j := others[j] + 1];
      Release(j, both[i := 0], pins);
      assert others[j := others[j] + 1][j := others[j]] == others;
    }

    /** write_head: store the in-memory header in the header block. */
    method WriteHead(ghost others: seq<nat>, ghost pins: set<nat>) returns (ok: bool)
      requires Shared(others, pins) && |lh| <= LOGSIZE && l.start !in pins
      modifies bc, this`latest
      ensures ok <==> old(HasSpare(others, pins))
      ensures ok ==>
                && Shared(others, pins) && HasSpare(others, pins)
                && bc.disk == Log.WriteHead(l, old(bc.disk), lh)
                && latest == Log.WriteHead(l, old(latest), lh)
                && bc.history == old(bc.history) + [bc.disk]
    {
      hide Coherent, Choose, PutWords, SetWord;
      LogBlockIff(bc.View(), Use(others, pins, {}, latest), bc.disk, l, l.start);
      UnpinnedOnDisk(bc.View(), Use(others, pins, {}, latest), bc.disk, l.start);
      var r := Read(l.start, others, pins);
      if r.None? {
        return false;
      }
      var i := r.value;
      var hb := FormatHead(bc.buf[i].data);
      Overwrite(i, hb, others[i := 1], pins);
      Release(i, others[i := 1], pins);
      assert others[i := 1][i := 0] == others;
      assert others[i] == 0 && !Pinned(bc.buf[i], pins);
      ok := true;
    }

    /** The loop of write_head over the block numbers. */
    method FormatHead(b: Block) returns (hb: Block)
      requires |lh| <= LOGSIZE
      ensures hb == HeadBlock(b, lh)
    {
      var n := |lh|;
      hb := SetWord(b, 0, n);
      var i := 0;
      while i < n
        invariant 0 <= i <= n && hb == PutWords(SetWord(b, 0, n), 1, lh[..i])
      {
        assert lh[..i + 1][..i] == lh[..i];
        hb := SetWord(hb, 1 + i, lh[i]);
        i := i + 1;
      }
      assert lh[..n] == lh;
    }

    /** read_head: load the header block into the in-memory header. */
    method ReadHead(ghost others: seq<nat>, ghost pins: set<nat>) returns (ok: bool)
      requires Shared(others, pins) && HeadCount(l, bc.disk) <= LOGSIZE && l.start !in pins
      modifies bc`buf, bc`next, bc`prev, bc`order, this`lh
      ensures ok <==> old(HasSpare(others, pins))
      ensures ok ==> Shared(others, pins) && HasSpare(others, pins) && lh == Head(l, bc.disk)
    {
      hide Coherent, Choose;
      LogBlockIff(bc.View(), Use(others, pins, {}, latest), bc.disk, l, l.start);
      UnpinnedOnDisk(bc.View(), Use(others, pins, {}, latest), bc.disk, l.start);
      var r := Read(l.start, others, pins);
      if r.None? {
        return false;
      }
      var i := r.value;
      ParseHead(bc.buf[i].data);
      Release(i, others[i := 1], pins);
      assert others[i := 1][i := 0] == others;
      assert others[i] == 0 && !Pinned(bc.buf[i], pins);
      ok := true;
    }

    /** The loop of read_head over the block numbers. */
    method ParseHead(b: Block)
      requires Word(b, 0) <= LOGSIZE
      modifies this`lh
      ensures lh == HeadWords(b, Word(b, 0))
    {
      lh := [];
      var i := 0;
      while i < Word(b, 0)
        invariant 0 <= i <= Word(b, 0) && lh == HeadWords(b, i)
      {
        lh := lh + [Word(b, 1 + i)];
        i := i + 1;
      }
    }

    /** The first `tail` slots have been written since the disk was d, the view t and the
        write history h. */
    ghost predicate Logged(others: seq<nat>, d: Disk, t: Disk, h: seq<Disk>, data: seq<Block>, tail: nat)
      reads this, bc
    {
      && Fits(l, d) && |t| == |d| == |bc.disk| && Entries(l, |d|, lh) && |data| == |lh| && tail <= |lh|
      && Shared(others, Elements<nat>(lh))
      && bc.disk == Log.WriteLog(l, d, data, tail)
      && latest == Log.WriteLog(l, t, data, tail)
      && bc.history == h + CommitTrace(l, d, lh, data, tail)
    }

    method LogTurn(tail: nat, ghost others: seq<nat>, ghost d: Disk, ghost t: Disk, ghost h: seq<Disk>,
                   ghost data: seq<Block>)
      returns (ok: bool)
      requires tail < |lh| && Logged(others, d, t, h, data, tail) && data == Contents(t, lh)
      modifies bc, this`latest
      ensures ok <==> old(HasSpare(others, Elements<nat>(lh)))
      ensures ok ==> Logged(others, d, t, h, data, tail + 1) && HasSpare(others, Elements<nat>(lh))
    {
      hide Coherent, Choose, CommitAfter, Spare, LogIsPrivate, Distinct;
      WriteLogAt(l, t, data, tail);
      assert Home(l, |d|, lh[tail]);
      assert latest[lh[tail]] == data[tail];
      CommitLogStep(l, d, lh, data, tail + 1);
      ok := CopyToSlot(tail, others, Elements<nat>(lh));
    }

    /** write_log: copy every logged block from the cache to its slot. */
    method WriteLog(ghost others: seq<nat>, ghost data: seq<Block>) returns (ok: bool)
      requires Shared(others, Elements<nat>(lh)) && Entries(l, |bc.disk|, lh)
      requires data == Contents(latest, lh)
      modifies bc, this`latest
      ensures ok <==> old(HasSpare(others, Elements<nat>(lh))) || lh == []
      ensures ok ==> Logged(others, old(bc.disk), old(latest), old(bc.history), data, |lh|)
      ensures ok && lh != [] ==> HasSpare(others, Elements<nat>(lh))
    {
      hide Coherent, Choose, CommitAfter, Spare;
      ghost var d, t, h := bc.disk, latest, bc.history;
      var tail := 0;
      while tail < |lh|
        invariant 0 <= tail <= |lh| && Logged(others, d, t, h, data, tail)
        invariant HasSpare(others, Elements<nat>(lh)) <==> old(HasSpare(others, Elements<nat>(lh)))
        invariant tail > 0 ==> HasSpare(others, Elements<nat>(lh))
      {
        ok := LogTurn(tail, others, d, t, h, data);
        if !ok {
          return;
        }
        tail := tail + 1;
      }
      ok := true;
    }

    /** The first `tail` blocks have been installed since the disk was d, the view t and the
        write history h. */
    ghost predicate Installed(others: seq<nat>, d: Disk, t: Disk, h: seq<Disk>, recovering: bool, tail: nat)
      reads this, bc
    {
      && Fits(l, d) && |t| == |d| == |bc.disk| && Entries(l, |d|, lh) && tail <= |lh|
      && Shared(others, if recovering then {} else Elements<nat>(lh[tail..]))
      && bc.disk == Install(l, d, lh, tail)
      && latest == Install(l, t, lh, tail)
      && bc.history == h + InstallTrace(l, d, lh, tail)
    }

    method InstallTurn(tail: nat, recovering: bool, ghost others: seq<nat>, ghost d: Disk, ghost t: Disk,
                       ghost h: seq<Disk>)
      returns (ok: bool)
      requires tail < |lh| && Installed(others, d, t, h, recovering, tail) && (recovering ==> others == Unheld())
      modifies bc, this`latest
      ensures ok <==> old(HasSpare(others, if recovering then {} else Elements<nat>(lh[tail..])))
      ensures ok ==> Installed(others, d, t, h, recovering, tail + 1)
      ensures ok ==> HasSpare(others, if recovering then {} else Elements<nat>(lh[tail + 1..]))
    {
      hide Coherent, Choose, Spare;
      ghost var pins := if recovering then {} else Elements<nat>(lh[tail..]);
      assert lh[tail..][0] == lh[tail];
      ghost var slot := l.start + 1 + tail;
      UnpinnedOnDisk(bc.View(), Use(others, pins, {}, latest), bc.disk, slot);
      SuffixElements<nat>(lh, tail);
      ok := InstallOne(tail, recovering, others, pins);
    }

    /** install_trans: copy every logged block from its slot to its home. */
    method InstallTrans(recovering: bool, ghost others: seq<nat>) returns (ok: bool)
      requires Shared(others, if recovering then {} else Elements<nat>(lh)) && Entries(l, |bc.disk|, lh)
      requires recovering ==> others == Unheld()
      modifies bc, this`latest
      ensures ok <==> old(HasSpare(others, if recovering then {} else Elements<nat>(lh))) || lh == []
      ensures ok ==> Installed(others, old(bc.disk), old(latest), old(bc.history), recovering, |lh|)
      ensures old(HasSpare(others, if recovering then {} else Elements<nat>(lh))) ==> ok && HasSpare(others, {})
    {
      hide Coherent, Choose, Spare;
      ghost var d, t, h := bc.disk, latest, bc.history;
      var tail := 0;
      assert lh[0..] == lh;
      while tail < |lh|
        invariant 0 <= tail <= |lh| && Installed(others, d, t, h, recovering, tail)
        invariant tail == 0 ==> (HasSpare(others, if recovering then {} else Elements<nat>(lh[tail..])) <==>
                                 old(HasSpare(others, if recovering then {} else Elements<nat>(lh))))
        invariant tail > 0 ==> HasSpare(others, if recovering then {} else Elements<nat>(lh[tail..]))
        invariant tail > 0 ==> old(HasSpare(others, if recovering then {} else Elements<nat>(lh)))
      {
        ok := InstallTurn(tail, recovering, others, d, t, h);
        if !ok {
          return;
        }
        tail := tail + 1;
      }
      assert Elements<nat>(lh[|lh|..]) == {};
      ok := true;
    }

    /** What the device has done once a whole commit is over. */
    ghost predicate CommitDone(others: seq<nat>, d: Disk, t: Disk, h: seq<Disk>, blocks: seq<word>, data: seq<Block>)
      reads this, bc
    {
      && Fits(l, d) && |t| == |d| && Entries(l, |d|, blocks) && |data| == |blocks|
      && Shared(others, {}) && lh == []
      && bc.disk == CommitEnd(l, d, blocks, data)
      && latest == CommitEnd(l, t, blocks, data)
      && bc.history == h + CommitTrace(l, d, blocks, data, 2 * |blocks| + 2)
    }

    /** commit, while other processes hold some buffers: its block writes are exactly those of
        CommitTrace, so CommitIsAtomic covers a crash after any of them; readers see no change, and
        the disk ends up with what they see. It panics in bget exactly when there is something to
        commit and every buffer is held or pinned. */
    method Commit(ghost others: seq<nat>) returns (ok: bool)
      requires Shared(others, Elements<nat>(lh)) && Entries(l, |bc.disk|, lh)
      modifies bc, this`latest, this`lh
      ensures ok <==> old(lh) == [] || old(HasSpare(others, Elements<nat>(lh)))
      ensures old(lh) == [] ==>
                lh == [] && Shared(others, {}) && bc.disk == old(bc.disk) && bc.history == old(bc.history)
      ensures ok && old(lh) != [] ==>
                CommitDone(others, old(bc.disk), old(latest), old(bc.history), old(lh), Contents(old(latest), old(lh)))
      ensures ok ==> lh == [] && Shared(others, {})
      ensures ok ==> SameHome(l, latest, old(latest)) && SameHome(l, bc.disk, latest)
    {
      hide Coherent, Choose, CommitTrace, InstallTrace, Install, Log.WriteLog, Log.WriteHead, Spare;
      ghost var blocks, d, t, h := lh, bc.disk, latest, bc.history;
      if |lh| > 0 {
        ghost var data := Contents(latest, lh);
        ok := WriteLog(others, data);
        if !ok { return; }
        ok := CommitTail(others, d, t, h, data);
        if ok {
          CommitShowsNothing(l, t, blocks, data);
        }
      } else {
        assert Elements<nat>(lh) == {};
        ok := true;
      }
      if ok {
        HomeOnDisk(bc.View(), others, latest, bc.disk, l);
      }
    }

    /** commit after write_log. */
    method CommitTail(ghost others: seq<nat>, ghost d: Disk, ghost t: Disk, ghost h: seq<Disk>, ghost data: seq<Block>)
      returns (ok: bool)
      requires 0 < |lh| && Logged(others, d, t, h, data, |lh|) && HasSpare(others, Elements<nat>(lh))
      modifies bc, this`latest, this`lh
      ensures ok && CommitDone(others, d, t, h, old(lh), data)
    {
      hide Coherent, Choose, CommitTrace, InstallTrace, Install, Log.WriteLog, Log.WriteHead, Spare;
      ghost var blocks := lh;
      ok := WriteHead(others, Elements<nat>(lh));
      ghost var c, v := bc.disk, latest;
      ghost var h1 := bc.history;
      ok := InstallTrans(false, others);
      assert lh[|lh|..] == [];
      assert Elements<nat>(lh[|lh|..]) == {};
      lh := [];
      ok := WriteHead(others, {});
      CommitTraceWhole(l, d, blocks, data);
    }

    /** recover_from_log: redo the logged transaction, if any, then erase it. */
    method RecoverFromLog() returns (ok: bool)
      requires Shared(Unheld(), {}) && HeadOk(l, bc.disk)
      modifies bc, this`latest, this`lh
      ensures ok && Shared(Unheld(), {}) && lh == []
      ensures bc.disk == Recovered(l, old(bc.disk)) == latest
      ensures bc.history == old(bc.history) + RecoverTrace(l, old(bc.disk), HeadCount(l, old(bc.disk)) + 1)
    {
      hide Coherent, Choose, InstallTrace, RecoverTrace, Install, Word, Recovered;
      ghost var d, h := bc.disk, bc.history;
      assert Unheld()[0] == 0 && !Pinned(bc.buf[0], {});
      ok := ReadHead(Unheld(), {});
      ok := RecoverTail(d, h);
      AllOnDisk(bc.View(), latest, bc.disk);
    }

    /** recover_from_log after read_head. */
    method RecoverTail(ghost d: Disk, ghost h: seq<Disk>) returns (ok: bool)
      requires Shared(Unheld(), {}) && bc.disk == d && bc.history == h && HasSpare(Unheld(), {})
      requires HeadOk(l, d) && lh == Head(l, d)
      modifies bc, this`latest, this`lh
      ensures ok && Shared(Unheld(), {}) && lh == []
      ensures bc.disk == Recovered(l, d)
      ensures bc.history == h + RecoverTrace(l, d, HeadCount(l, d) + 1)
    {
      hide Coherent, Choose, InstallTrace, RecoverTrace, Install, Word, Log.WriteHead, Spare;
      RecoverTraceWhole(l, d);
      ok := InstallTrans(true, Unheld());
      lh := [];
      ok := WriteHead(Unheld(), {});
      assert h + (InstallTrace(l, d, Head(l, d), HeadCount(l, d)) + [bc.disk]) ==
             h + InstallTrace(l, d, Head(l, d), HeadCount(l, d)) + [bc.disk];
    }

    ghost function State(): R.LogState
      reads this
    {
      R.LogState(l.size, lh, outstanding, committing)
    }

    /** log_write: record the buffer's block and pin the buffer unless the block was recorded
        already. False is the panic "too big a transaction" or "log_write outside of trans". */
    method LogWrite(i: nat) returns (ok: bool)
      requires bc.Valid() && i < NBUF && bc.buf[i].blockno < 0x1_0000_0000
      modifies this`lh, bc`buf
      ensures bc.Valid()
      ensures ok <==> !R.TooBig(old(State())) && outstanding >= 1
      ensures !ok ==> State() == old(State()) && bc.View() == old(bc.View())
      ensures ok ==> State() == R.Absorb(old(State()), old(bc.buf[i].blockno))
      ensures ok ==> bc.View() == if old(bc.buf[i].blockno) in old(lh) then old(bc.View()) else Pin(old(bc.View()), i)
    {
      if |lh| >= LOGSIZE || |lh| >= l.size - 1 || outstanding < 1 {
        return false;
      }
      var b := bc.buf[i].blockno;
      var k := 0;
      while k < |lh| && lh[k] != b
        invariant 0 <= k <= |lh| && b !in lh[..k]
      {
        k := k + 1;
      }
      if k == |lh| {
        assert lh[..k] == lh;
        bc.Bpin(i);
        lh := lh + [b];
      } else {
        lh := lh[k := b];
      }
      ok := true;
    }

    /** One pass of begin_op's loop: false means it goes to sleep on the log. */
    method TryBegin() returns (admitted: bool)
      modifies this`outstanding
      ensures admitted <==> R.Admits(old(State()))
      ensures State() == if admitted then R.Begin(old(State())) else old(State())
    {
      if committing {
        admitted := false;
      } else if |lh| + (outstanding + 1) * MAXOPBLOCKS > LOGSIZE {
        admitted := false;
      } else {
        outstanding := outstanding + 1;
        admitted := true;
      }
    }

    /** end_op: the last operation commits, while other processes may hold buffers. */
    method EndOp(ghost others: seq<nat>) returns (ok: bool)
      requires outstanding > 0
      requires outstanding == 1 ==> Shared(others, Elements<nat>(lh)) && Entries(l, |bc.disk|, lh)
      modifies bc, this
      ensures outstanding == old(outstanding) - 1
      ensures old(committing) ==> !ok
      ensures old(outstanding) > 1 && !old(committing) ==>
                ok && State() == R.End(old(State())) && latest == old(latest)
                && bc.disk == old(bc.disk) && bc.history == old(bc.history)
      ensures old(outstanding) == 1 && !old(committing) ==>
                (ok <==> old(lh) == [] || old(HasSpare(others, Elements<nat>(lh))))
      ensures old(outstanding) == 1 && ok ==>
                Shared(others, {}) && lh == [] && !committing && SameHome(l, latest, old(latest)) &&
                    SameHome(l, bc.disk, latest)
    {
      hide Coherent, Choose, Spare, CommitDone, Entries, SameHome, LogIsPrivate;
      outstanding := outstanding - 1;
      if committing {
        return false;
      }
      if outstanding == 0 {
        committing := true;
        ok := Commit(others);
        if ok {
          committing := false;
        }
      } else {
        ok := true;
      }
    }
  }
}
