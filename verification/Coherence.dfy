/** What the buffer cache keeps while it is used with the log: every cached copy agrees with
    the latest contents of its block, and a block whose latest contents are not on disk yet
    has a buffer that cannot be recycled. */
module Coherence {
  import opened Bytes
  import opened Params
  import opened BufferCache

  /** `held[i]` counts the references to buffer i, `pins` are the logged blocks, `dirty` the
      buffers changed but not logged yet, and `latest` the contents every reader must see. */
  datatype Use = Use(held: seq<nat>, pins: set<nat>, dirty: set<nat>, latest: seq<Block>)

  predicate Pinned(b: Buf, pins: set<nat>) {
    b.dev == ROOTDEV && b.blockno in pins
  }

  /** refcnt is the number of references, plus one exactly when the block is in the log. */
  predicate Counted(c: Cache, u: Use) {
    && Shape(c) && |u.held| == NBUF
    && forall i :: 0 <= i < NBUF ==> c.buf[i].refcnt == u.held[i] + if Pinned(c.buf[i], u.pins) then 1 else 0
  }

  /** Block b has a buffer that holds its contents. */
  ghost predicate Resident(c: Cache, b: nat) {
    exists i :: 0 <= i < |c.buf| && Caches(c.buf[i], b) && c.buf[i].valid
  }

  ghost predicate PinsResident(c: Cache, u: Use) {
    forall b :: b in u.pins ==> Resident(c, b)
  }

  predicate DirtyHeld(c: Cache, u: Use)
    requires Shape(c) && |u.held| == NBUF
  {
    forall i :: i in u.dirty ==> i < NBUF && c.buf[i].dev == ROOTDEV && c.buf[i].valid && u.held[i] > 0
  }

  /** Valid buffers hold the latest contents. */
  predicate Current(c: Cache, u: Use)
    requires Shape(c)
  {
    && (forall i :: 0 <= i < NBUF && c.buf[i].dev == ROOTDEV ==> c.buf[i].blockno < |u.latest|)
    && (forall i :: 0 <= i < NBUF && c.buf[i].valid ==>
          c.buf[i].dev == ROOTDEV && c.buf[i].data == u.latest[c.buf[i].blockno])
  }

  predicate IsDirty(c: Cache, u: Use, b: nat)
    requires Shape(c) && |u.held| == NBUF && DirtyHeld(c, u)
  {
    exists i :: i in u.dirty && c.buf[i].blockno == b
  }

  /** A block that is neither logged nor being changed has its latest contents on disk. */
  predicate OnDisk(c: Cache, u: Use, disk: seq<Block>)
    requires Shape(c) && |u.held| == NBUF && DirtyHeld(c, u)
  {
    && |disk| == |u.latest|
    && forall b: nat :: b < |disk| && b !in u.pins && !IsDirty(c, u, b) ==> disk[b] == u.latest[b]
  }

  ghost predicate Coherent(c: Cache, u: Use, disk: seq<Block>) {
    && Counted(c, u) && Unique(c.buf) && PinsResident(c, u)
    && DirtyHeld(c, u) && Current(c, u) && OnDisk(c, u, disk)
  }

  function Hold(u: Use, i: nat): Use
    requires i < |u.held|
  {
    u.(held := u.held[i := u.held[i] + 1])
  }

  function Unhold(u: Use, i: nat): Use
    requires i < |u.held| && u.held[i] > 0
  {
    u.(held := u.held[i := u.held[i] - 1])
  }

  lemma OnlyBuffer(c: Cache, i: nat)
    requires Shape(c) && Unique(c.buf) && i < NBUF && c.buf[i].dev == ROOTDEV
    ensures forall k :: 0 <= k < NBUF && k != i ==> !Caches(c.buf[k], c.buf[i].blockno)
  {
  }

  lemma StaysResident(c: Cache, c': Cache, pins: set<nat>)
    requires |c.buf| == |c'.buf|
    requires forall i :: 0 <= i < |c.buf| && c.buf[i].valid ==>
               c'.buf[i].valid && c'.buf[i].dev == c.buf[i].dev && c'.buf[i].blockno == c.buf[i].blockno
    requires forall b :: b in pins ==> Resident(c, b)
    ensures forall b :: b in pins ==> Resident(c', b)
  {
    forall b | b in pins
      ensures Resident(c', b)
    {
      assert Resident(c, b);
      var j :| 0 <= j < |c.buf| && Caches(c.buf[j], b) && c.buf[j].valid;
      assert Caches(c'.buf[j], b) && c'.buf[j].valid;
    }
  }

  /** bget never recycles a logged, dirty or referenced buffer. */
  lemma GetCoherent(c: Cache, u: Use, disk: seq<Block>, b: nat)
    requires Coherent(c, u, disk) && b < |disk| && Choose(c, b).Some?
    ensures var i := Choose(c, b).value;
            i < NBUF && Coherent(Claim(c, i, b), Hold(u, i), disk) && Caches(Claim(c, i, b).buf[i], b)
    ensures forall j :: j in u.dirty ==> Claim(c, Choose(c, b).value, b).buf[j].blockno == c.buf[j].blockno
  {
    var i := Choose(c, b).value;
    ChooseSpec(c, b);
    ClaimKeepsUnique(c, b);
    var c', u' := Claim(c, i, b), Hold(u, i);
    forall p | p in u'.pins
      ensures Resident(c', p)
    {
      assert Resident(c, p);
      var j :| 0 <= j < NBUF && Caches(c.buf[j], p) && c.buf[j].valid;
      if j == i { assert Caches(c.buf[i], b); }
      assert Caches(c'.buf[j], p) && c'.buf[j].valid;
    }
    if Caches(c.buf[i], b) {
      assert forall k :: 0 <= k < NBUF ==> c'.buf[k].blockno == c.buf[k].blockno;
    } else {
      assert i !in u.dirty;
    }
    assert forall k :: k in u.dirty ==> c'.buf[k].blockno == c.buf[k].blockno;
    assert forall x: nat :: IsDirty(c', u', x) <==> IsDirty(c, u, x);
  }

  /** Reading the block in gives the buffer its latest contents. */
  lemma FillCoherent(c: Cache, u: Use, disk: seq<Block>, i: nat)
    requires Coherent(c, u, disk) && i < NBUF && c.buf[i].dev == ROOTDEV && c.buf[i].blockno < |disk|
    ensures var c' := Fill(c, i, disk);
            Coherent(c', u, disk) && c'.buf[i].valid && c'.buf[i].data == u.latest[c.buf[i].blockno]
  {
    var b := c.buf[i].blockno;
    var c' := Fill(c, i, disk);
    if !c.buf[i].valid {
      OnlyBuffer(c, i);
      assert !Resident(c, b);
      assert !IsDirty(c, u, b);
      assert disk[b] == u.latest[b];
    }
    StaysResident(c, c', u.pins);
    assert forall x: nat :: IsDirty(c', u, x) <==> IsDirty(c, u, x);
  }

  lemma DropCoherent(c: Cache, u: Use, disk: seq<Block>, i: nat)
    requires Coherent(c, u, disk) && i < NBUF && u.held[i] > 0
    requires i in u.dirty ==> u.held[i] > 1
    ensures Coherent(Drop(c, i), Unhold(u, i), disk)
  {
    var c', u' := Drop(c, i), Unhold(u, i);
    SameExceptCounts(c, c', u, u', disk);
  }

  /** Coherence depends on reference counts only through Counted and DirtyHeld. */
  lemma SameExceptCounts(c: Cache, c': Cache, u: Use, u': Use, disk: seq<Block>)
    requires Coherent(c, u, disk) && Counted(c', u') && DirtyHeld(c', u')
    requires u' == u.(held := u'.held)
    requires forall i :: 0 <= i < NBUF ==> c'.buf[i] == c.buf[i].(refcnt := c'.buf[i].refcnt)
    ensures Coherent(c', u', disk)
  {
    StaysResident(c, c', u'.pins);
    assert forall x: nat :: IsDirty(c', u', x) <==> IsDirty(c, u, x);
  }

  function Store(c: Cache, i: nat, data: Block): (r: Cache)
    requires Shape(c) && i < NBUF
    ensures Shape(r)
  {
    c.(buf := c.buf[i := c.buf[i].(data := data)])
  }

  /** Changing a held buffer makes its new contents the latest. */
  lemma ModifyCoherent(c: Cache, u: Use, disk: seq<Block>, i: nat, data: Block)
    requires Coherent(c, u, disk) && i < NBUF && c.buf[i].valid && u.held[i] > 0
    ensures Coherent(Store(c, i, data), u.(dirty := u.dirty + {i}, latest := u.latest[c.buf[i].blockno := data]), disk)
  {
    var b := c.buf[i].blockno;
    var c', u' := Store(c, i, data), u.(dirty := u.dirty + {i}, latest := u.latest[b := data]);
    StaysResident(c, c', u'.pins);
    OnlyBuffer(c, i);
    assert IsDirty(c', u', b) by { assert i in u'.dirty && c'.buf[i].blockno == b; }
    assert forall j :: j in u.dirty ==> j in u'.dirty && c'.buf[j].blockno == c.buf[j].blockno;
    assert forall x: nat :: IsDirty(c, u, x) ==> IsDirty(c', u', x);
  }

  /** What log_write does to the cache: pin the buffer unless its block is logged already. */
  function Logged(c: Cache, u: Use, i: nat): (r: Cache)
    requires Shape(c) && i < NBUF
    ensures Shape(r)
  {
    if c.buf[i].blockno in u.pins then c else Pin(c, i)
  }

  /** Once logged, the block is protected by its pin rather than by its holder. */
  lemma LogCoherent(c: Cache, u: Use, disk: seq<Block>, i: nat)
    requires Coherent(c, u, disk) && i < NBUF && c.buf[i].valid && u.held[i] > 0
    ensures Coherent(Logged(c, u, i), u.(pins := u.pins + {c.buf[i].blockno}, dirty := u.dirty - {i}), disk)
  {
    hide OnDisk, PinsResident, IsDirty;
    LogCounted(c, u, disk, i);
    LogOnDisk(c, u, disk, i);
    LogResident(c, u, disk, i);
  }

  lemma LogCounted(c: Cache, u: Use, disk: seq<Block>, i: nat)
    requires Coherent(c, u, disk) && i < NBUF && c.buf[i].valid && u.held[i] > 0
    ensures Counted(Logged(c, u, i), u.(pins := u.pins + {c.buf[i].blockno}, dirty := u.dirty - {i}))
  {
    hide OnDisk, PinsResident, DirtyHeld;
    OnlyBuffer(c, i);
  }

  lemma LogResident(c: Cache, u: Use, disk: seq<Block>, i: nat)
    requires Coherent(c, u, disk) && i < NBUF && c.buf[i].valid && u.held[i] > 0
    ensures PinsResident(Logged(c, u, i), u.(pins := u.pins + {c.buf[i].blockno}, dirty := u.dirty - {i}))
  {
    hide OnDisk, Unique, DirtyHeld;
    assert Caches(c.buf[i], c.buf[i].blockno);
    StaysResident(c, Logged(c, u, i), u.pins + {c.buf[i].blockno});
  }

  lemma LogOnDisk(c: Cache, u: Use, disk: seq<Block>, i: nat)
    requires Coherent(c, u, disk) && i < NBUF && c.buf[i].valid && u.held[i] > 0
    ensures var c', u' := Logged(c, u, i), u.(pins := u.pins + {c.buf[i].blockno}, dirty := u.dirty - {i});
            DirtyHeld(c', u') && OnDisk(c', u', disk)
  {
    hide PinsResident, Counted;
    CountedShape(c, u);
    var b := c.buf[i].blockno;
    var c', u' := Logged(c, u, i), u.(pins := u.pins + {b}, dirty := u.dirty - {i});
    assert forall j :: j in u.dirty && j != i ==> j in u'.dirty && c'.buf[j].blockno == c.buf[j].blockno;
    assert forall x: nat :: IsDirty(c, u, x) && x != b ==> IsDirty(c', u', x);
  }

  lemma CountedShape(c: Cache, u: Use)
    requires Counted(c, u)
    ensures Shape(c) && |u.held| == NBUF
  {
  }

  /** Writing new contents to an unlogged block through its buffer (write_log, write_head). */
  lemma WriteThroughCoherent(c: Cache, u: Use, disk: seq<Block>, i: nat, data: Block)
    requires Coherent(c, u, disk) && i < NBUF && c.buf[i].valid && c.buf[i].blockno < |disk|
    ensures var b := c.buf[i].blockno;
            Coherent(Store(c, i, data), u.(latest := u.latest[b := data]), disk[b := data])
  {
    var b := c.buf[i].blockno;
    var c', u' := Store(c, i, data), u.(latest := u.latest[b := data]);
    StaysResident(c, c', u'.pins);
    OnlyBuffer(c, i);
    assert forall x: nat :: IsDirty(c', u', x) <==> IsDirty(c, u, x);
  }

  /** Once its latest contents are on disk, a block needs its pin no more. */
  lemma UnpinCoherent(c: Cache, u: Use, disk: seq<Block>, i: nat)
    requires Coherent(c, u, disk) && i < NBUF && Pinned(c.buf[i], u.pins)
    requires c.buf[i].blockno < |disk| && disk[c.buf[i].blockno] == u.latest[c.buf[i].blockno]
    ensures Coherent(Unpin(c, i), u.(pins := u.pins - {c.buf[i].blockno}), disk)
  {
    var b := c.buf[i].blockno;
    var c', u' := Unpin(c, i), u.(pins := u.pins - {b});
    OnlyBuffer(c, i);
    StaysResident(c, c', u'.pins);
    assert forall x: nat :: IsDirty(c', u', x) <==> IsDirty(c, u, x);
  }

  function Unheld(): seq<nat> {
    seq(NBUF, i => 0)
  }

  // when bget panics

  /** The exact condition, whoever holds buffers: the block is not cached and every buffer is held
      or pinned. */
  lemma NoBufferIff(c: Cache, u: Use, disk: seq<Block>, b: nat)
    requires Coherent(c, u, disk)
    ensures Choose(c, b).None? <==>
            forall i :: 0 <= i < NBUF ==> !Caches(c.buf[i], b) && (u.held[i] > 0 || Pinned(c.buf[i], u.pins))
  {
    ChooseSpec(c, b);
  }
}
