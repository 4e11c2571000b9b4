/** The virtio disk driver and its device (kernel/virtio_disk.c; sections 2.6 and 5.2 of VIRTIO
    1.1): descriptors, the avail and used rings with their 16-bit indices, and the threads that
    wait in virtio_disk_rw. The device takes and completes requests in any order it likes. */
module Virtio {
  import opened Sequences
  import opened Sets
  import opened Bytes

  const NUM: nat := 8
  const WRAP: nat := 0x1_0000
  const F_NEXT: nat := 1
  const F_WRITE: nat := 2
  const NOBUF: int := -1

  /** What a descriptor points to. */
  datatype Addr = Null | Header(h: nat) | Data(b: int) | StatusByte(h: nat)

  datatype Desc = Desc(addr: Addr, len: nat, flags: nat, next: nat)

  datatype Op = Op(write: bool, sector: nat)

  datatype Info = Info(b: int, status: nat)

  /** Where a request is: in the avail ring, with the device, in the used ring, or reported. */
  datatype Stage = Pending | Taken | Done | Seen

  /** A thread in virtio_disk_rw: its three descriptors, what it asked for, and how far its request
      has come. `data` is what the request must transfer. */
  datatype Req = Req(h: nat, c1: nat, c2: nat, write: bool, block: nat, data: Block, stage: Stage)

  /** `held` names the buffer whose request uses a descriptor. `pend`, `taken` and `comp` are the
      heads in the avail ring, with the device, and in the used ring. */
  datatype State = State(
    desc: seq<Desc>, avail: seq<nat>, availIdx: nat, used: seq<nat>, usedIdx: nat,
    free: seq<bool>, seenIdx: nat, info: seq<Info>, ops: seq<Op>,
    busy: set<int>, bufs: map<int, Block>, reqs: map<int, Req>,
    takenIdx: nat, disk: map<nat, Block>,
    held: seq<int>, pend: seq<nat>, taken: set<nat>, comp: seq<nat>)

  predicate Shape(s: State) {
    && |s.desc| == NUM && |s.avail| == NUM && |s.used| == NUM && |s.free| == NUM && |s.info| == NUM && |s.ops| == NUM
    && |s.held| == NUM
    && s.availIdx < WRAP && s.usedIdx < WRAP && s.seenIdx < WRAP && s.takenIdx < WRAP
  }

  // the driver

  /** The product of a 32-bit block number is a 32-bit one. */
  function Sector(block: nat): nat {
    block * (BSIZE / 512) % 0x1_0000_0000
  }

  /** Block numbers whose sector does not wrap around. */
  const BLOCKS: nat := 0x8000_0000

  function Descs(desc: seq<Desc>, b: nat, h: nat, c1: nat, c2: nat, write: bool): (r: seq<Desc>)
    requires |desc| == NUM && h < NUM && c1 < NUM && c2 < NUM
    ensures |r| == NUM
  {
    desc[h := Desc(Header(h), 16, F_NEXT, c1)]
        [c1 := Desc(Data(b), BSIZE, (if write then 0 else F_WRITE) + F_NEXT, c2)]
        [c2 := Desc(StatusByte(h), 1, F_WRITE, 0)]
  }

  predicate Three(s: State, h: nat, c1: nat, c2: nat)
    requires Shape(s)
  {
    h < NUM && c1 < NUM && c2 < NUM && h != c1 && h != c2 && c1 != c2 && s.free[h] && s.free[c1] && s.free[c2]
  }

  /** virtio_disk_rw up to the notification, once three descriptors are free. The caller holds the
      buffer's sleep lock, so neither the buffer nor its block is in another request. */
  predicate CanSubmit(s: State, b: nat, block: nat, h: nat, c1: nat, c2: nat)
    requires Shape(s)
  {
    && Three(s, h, c1, c2) && b !in s.reqs && b !in s.busy && b in s.bufs && block in s.disk && block < BLOCKS
    && forall o :: o in s.reqs ==> s.reqs[o].block != block
  }

  function Submit(s: State, b: nat, write: bool, block: nat, h: nat, c1: nat, c2: nat): State
    requires Shape(s) && CanSubmit(s, b, block, h, c1, c2)
  {
    s.(free := s.free[h := false][c1 := false][c2 := false],
       ops := s.ops[h := Op(write, Sector(block))],
       desc := Descs(s.desc, b, h, c1, c2, write),
       info := s.info[h := Info(b, 0xff)],
       busy := s.busy + {b},
       avail := s.avail[s.availIdx % NUM := h],
       availIdx := (s.availIdx + 1) % WRAP,
       reqs := s.reqs[b := Req(h, c1, c2, write, block, if write then s.bufs[b] else s.disk[block], Pending)],
       held := s.held[h := b][c1 := b][c2 := b],
       pend := s.pend + [h])
  }

  /** One turn of virtio_disk_intr's loop; its panic is a status that is not 0. */
  predicate CanSee(s: State)
    requires Shape(s)
  {
    s.seenIdx != s.usedIdx
  }

  predicate SeePanics(s: State)
    requires Shape(s) && CanSee(s)
  {
    var id := s.used[s.seenIdx % NUM];
    id >= NUM || s.info[id].status != 0 || s.info[id].b < 0
  }

  function Move(s: State, b: int, stage: Stage): map<int, Req> {
    if b in s.reqs then s.reqs[b := s.reqs[b].(stage := stage)] else s.reqs
  }

  function See(s: State): State
    requires Shape(s) && CanSee(s) && !SeePanics(s) && s.comp != []
  {
    var b := s.info[s.used[s.seenIdx % NUM]].b;
    s.(busy := s.busy - {b}, seenIdx := (s.seenIdx + 1) % WRAP, comp := s.comp[1..], reqs := Move(s, b, Seen))
  }

  /** The rest of virtio_disk_rw, once the buffer is no longer owned by the disk. */
  predicate CanFinish(s: State, b: int)
    requires Shape(s)
  {
    b in s.reqs && b !in s.busy && s.reqs[b].h < NUM
  }

  function Freed(desc: seq<Desc>, i: nat): seq<Desc>
    requires i < |desc|
  {
    desc[i := Desc(Null, 0, 0, 0)]
  }

  function Finish(s: State, b: int): State
    requires Shape(s) && CanFinish(s, b) && s.reqs[b].c1 < NUM && s.reqs[b].c2 < NUM
  {
    var q := s.reqs[b];
    s.(info := s.info[q.h := s.info[q.h].(b := NOBUF)],
       desc := Freed(Freed(Freed(s.desc, q.h), q.c1), q.c2),
       free := s.free[q.h := true][q.c1 := true][q.c2 := true],
       held := s.held[q.h := NOBUF][q.c1 := NOBUF][q.c2 := NOBUF],
       reqs := s.reqs - {b})
  }

  // the device

  predicate CanTake(s: State)
    requires Shape(s)
  {
    s.takenIdx != s.availIdx
  }

  function HolderOf(s: State, h: nat): int
    requires Shape(s)
  {
    if h < NUM then s.held[h] else NOBUF
  }

  function Take(s: State): State
    requires Shape(s) && CanTake(s) && s.pend != []
  {
    var h := s.avail[s.takenIdx % NUM];
    s.(taken := s.taken + {h}, takenIdx := (s.takenIdx + 1) % WRAP, pend := s.pend[1..],
       reqs := Move(s, HolderOf(s, h), Taken))
  }

  /** What the device finds when it follows the chain from h. */
  predicate ChainOk(s: State, h: nat)
    requires Shape(s)
  {
    && h < NUM && s.desc[h].addr == Header(h) && s.desc[h].flags == F_NEXT && s.desc[h].next < NUM
    && var d := s.desc[s.desc[h].next];
       d.addr.Data? && d.addr.b in s.bufs && d.len == BSIZE && d.flags % 2 == F_NEXT && d.next < NUM
       && (d.flags / F_WRITE == 0 <==> s.ops[h].write)
       && s.desc[d.next] == Desc(StatusByte(h), 1, F_WRITE, 0)
       && s.ops[h].sector % (BSIZE / 512) == 0 && s.ops[h].sector / (BSIZE / 512) in s.disk
  }

  /** The device does the request of chain h, sets the status to 0 and puts h into the used ring. */
  function Complete(s: State, h: nat): State
    requires Shape(s) && h in s.taken && ChainOk(s, h)
  {
    var b := s.desc[s.desc[h].next].addr.b;
    var block := s.ops[h].sector / (BSIZE / 512);
    s.(disk := if s.ops[h].write then s.disk[block := s.bufs[b]] else s.disk,
       bufs := if s.ops[h].write then s.bufs else s.bufs[b := s.disk[block]],
       info := s.info[h := s.info[h].(status := 0)],
       used := s.used[s.usedIdx % NUM := h],
       usedIdx := (s.usedIdx + 1) % WRAP,
       taken := s.taken - {h},
       comp := s.comp + [h],
       reqs := Move(s, HolderOf(s, h), Done))
  }

  // the invariant

  /** The chain of a request is as the driver wrote it. */
  predicate ReqOk(s: State, b: int)
    requires Shape(s) && b in s.reqs
  {
    var q := s.reqs[b];
    && q.h < NUM && q.c1 < NUM && q.c2 < NUM && q.h != q.c1 && q.h != q.c2 && q.c1 != q.c2
    && s.held[q.h] == b && s.held[q.c1] == b && s.held[q.c2] == b
    && s.desc[q.h] == Desc(Header(q.h), 16, F_NEXT, q.c1)
    && s.desc[q.c1] == Desc(Data(b), BSIZE, (if q.write then 0 else F_WRITE) + F_NEXT, q.c2)
    && s.desc[q.c2] == Desc(StatusByte(q.h), 1, F_WRITE, 0)
    && s.ops[q.h] == Op(q.write, Sector(q.block)) && s.info[q.h].b == b
    && 0 <= b && b in s.bufs && q.block in s.disk && q.block < BLOCKS
  }

  /** Where a request is, and what has been transferred. */
  predicate StageOk(s: State, b: int)
    requires Shape(s) && b in s.reqs && ReqOk(s, b)
  {
    var q := s.reqs[b];
    && (b in s.busy <==> !q.stage.Seen?)
    && (q.h in s.pend <==> q.stage.Pending?) && (q.h in s.taken <==> q.stage.Taken?) && (q.h in s.comp <==>
        q.stage.Done?)
    && (q.stage.Done? ==> s.info[q.h].status == 0)
    && (if q.write then s.bufs[b] == q.data else s.disk[q.block] == q.data)
    && (q.stage.Done? || q.stage.Seen? ==> s.bufs[b] == s.disk[q.block])
  }

  /** A descriptor is free or used by one request. */
  predicate DescOk(s: State, i: nat)
    requires Shape(s) && i < NUM
  {
    && (s.free[i] <==> s.held[i] == NOBUF)
    && (s.held[i] != NOBUF ==> s.held[i] >= 0 && s.held[i] in s.reqs &&
                               (var q := s.reqs[s.held[i]]; i == q.h || i == q.c1 || i == q.c2))
  }

  /** A head in a ring or with the device is the head of a request. */
  predicate HeadOk(s: State, h: nat)
    requires Shape(s)
  {
    h < NUM && s.held[h] >= 0 && s.held[h] in s.reqs && s.reqs[s.held[h]].h == h
  }

  ghost predicate Requests(s: State)
    requires Shape(s)
  {
    forall b :: b in s.reqs ==> ReqOk(s, b) && StageOk(s, b)
  }

  ghost predicate Busy(s: State) {
    forall b :: b in s.busy ==> b in s.reqs
  }

  /** No two requests are for the same block. */
  ghost predicate Apart(s: State) {
    forall b, o :: b in s.reqs && o in s.reqs && b != o ==> s.reqs[b].block != s.reqs[o].block
  }

  ghost predicate Descriptors(s: State)
    requires Shape(s)
  {
    forall i: nat :: i < NUM ==> DescOk(s, i)
  }

  ghost predicate Heads(s: State)
    requires Shape(s)
  {
    && Distinct(s.pend) && Distinct(s.comp)
    && (forall h :: h in s.pend ==> HeadOk(s, h)) && (forall h :: h in s.taken ==> HeadOk(s, h))
    && (forall h :: h in s.comp ==> HeadOk(s, h))
  }

  /** The rings hold what is pending and what is completed. */
  ghost predicate Rings(s: State)
    requires Shape(s)
  {
    && |s.pend| <= NUM && |s.comp| <= NUM
    && s.availIdx == (s.takenIdx + |s.pend|) % WRAP && s.usedIdx == (s.seenIdx + |s.comp|) % WRAP
    && (forall i :: 0 <= i < |s.pend| ==> s.avail[(s.takenIdx + i) % NUM] == s.pend[i])
    && (forall i :: 0 <= i < |s.comp| ==> s.used[(s.seenIdx + i) % NUM] == s.comp[i])
  }

  ghost predicate Inv(s: State) {
    Shape(s) && Requests(s) && Busy(s) && Apart(s) && Descriptors(s) && Heads(s) && Rings(s)
  }

  // the rings

  lemma RingSlot(base: nat, i: nat)
    ensures (base + i) % WRAP % NUM == (base + i) % NUM
  {
    var x := base + i;
    assert x == WRAP * (x / WRAP) + x % WRAP;
    assert x == NUM * (0x2000 * (x / WRAP)) + x % WRAP;
    ModAdd(NUM, 0x2000 * (x / WRAP), x % WRAP);
  }

  /** Appending to a ring that is not full. */
  ghost predicate RingOk(ring: seq<nat>, base: nat, q: seq<nat>) {
    && |ring| == NUM && |q| <= NUM
    && forall i :: 0 <= i < |q| ==> ring[(base + i) % NUM] == q[i]
  }

  lemma RingPush(ring: seq<nat>, base: nat, idx: nat, q: seq<nat>, h: nat)
    requires RingOk(ring, base, q) && |q| < NUM && base < WRAP && idx == (base + |q|) % WRAP
    ensures RingOk(ring[idx % NUM := h], base, q + [h])
    ensures (idx + 1) % WRAP == (base + (|q| + 1)) % WRAP
  {
    RingSlot(base, |q|);
    var ring', q' := ring[idx % NUM := h], q + [h];
    forall i | 0 <= i < |q'|
      ensures ring'[(base + i) % NUM] == q'[i]
    {
      if i < |q| {
        SlotsDiffer(NUM, base, i, |q|);
      }
    }
  }

  lemma RingPop(ring: seq<nat>, base: nat, q: seq<nat>)
    requires RingOk(ring, base, q) && q != [] && base < WRAP
    ensures ring[base % NUM] == q[0] && RingOk(ring, (base + 1) % WRAP, q[1..])
    ensures (base + |q|) % WRAP == ((base + 1) % WRAP + |q[1..]|) % WRAP
  {
    var q' := q[1..];
    assert ring[(base + 0) % NUM] == q[0];
    forall i | 0 <= i < |q'|
      ensures ring[((base + 1) % WRAP + i) % NUM] == q'[i]
    {
      assert ring[(base + (i + 1)) % NUM] == q[i + 1];
      if base + 1 == WRAP {
        assert (base + (i + 1)) == NUM * 0x2000 + i;
        ModAdd(NUM, 0x2000, i);
      }
    }
  }

  /** The 16-bit indices are equal only when nothing is queued. */
  lemma IndexEmpty(base: nat, n: nat)
    requires base < WRAP && n <= NUM
    ensures (base + n) % WRAP == base <==> n == 0
  {
  }

  // what the invariant says of one request, one descriptor, one head

  lemma GetReq(s: State, b: int)
    requires Inv(s) && b in s.reqs
    ensures ReqOk(s, b) && StageOk(s, b)
  {
  }

  lemma GetDesc(s: State, i: nat)
    requires Inv(s) && i < NUM
    ensures DescOk(s, i)
  {
  }

  lemma GetHead(s: State, h: nat)
    requires Inv(s) && (h in s.pend || h in s.taken || h in s.comp)
    ensures HeadOk(s, h)
  {
  }

  lemma HeadsBelow(s: State)
    requires Inv(s)
    ensures forall k :: 0 <= k < |s.pend| ==> s.pend[k] < NUM
    ensures forall k :: 0 <= k < |s.comp| ==> s.comp[k] < NUM
  {
    hide Requests, Busy, Apart, Descriptors, Rings;
    forall k | 0 <= k < |s.pend|
      ensures s.pend[k] < NUM
    {
      assert s.pend[k] in s.pend;
    }
    forall k | 0 <= k < |s.comp|
      ensures s.comp[k] < NUM
    {
      assert s.comp[k] in s.comp;
    }
  }

  // submitting

  lemma SubmitReq(s: State, b: nat, write: bool, block: nat, h: nat, c1: nat, c2: nat, o: int)
    requires Inv(s) && CanSubmit(s, b, block, h, c1, c2) && (o == b || o in s.reqs)
    ensures var s' := Submit(s, b, write, block, h, c1, c2); ReqOk(s', o) && StageOk(s', o)
  {
    hide Requests, Busy, Apart, Descriptors, Rings;
    GetDesc(s, h);
    GetDesc(s, c1);
    GetDesc(s, c2);
    if o != b {
      GetReq(s, o);
    } else {
      NotQueued(s, h);
    }
  }

  lemma NotQueued(s: State, h: nat)
    requires Inv(s) && h < NUM && s.free[h]
    ensures h !in s.pend && h !in s.taken && h !in s.comp
  {
    hide Requests, Busy, Apart, Rings, Descriptors;
    GetDesc(s, h);
  }

  lemma SubmitDesc(s: State, b: nat, write: bool, block: nat, h: nat, c1: nat, c2: nat, i: nat)
    requires Inv(s) && CanSubmit(s, b, block, h, c1, c2) && i < NUM
    ensures DescOk(Submit(s, b, write, block, h, c1, c2), i)
  {
    hide Requests, Busy, Apart, Descriptors, Rings, Heads;
    GetDesc(s, i);
  }

  lemma SubmitHeads(s: State, b: nat, write: bool, block: nat, h: nat, c1: nat, c2: nat)
    requires Inv(s) && CanSubmit(s, b, block, h, c1, c2)
    ensures Heads(Submit(s, b, write, block, h, c1, c2))
  {
    hide Requests, Busy, Apart, Descriptors, Rings, Descs;
    NotQueued(s, h);
    GetDesc(s, h);
    GetDesc(s, c1);
    GetDesc(s, c2);
  }

  lemma PendRoom(s: State, h: nat)
    requires Inv(s) && h < NUM && s.free[h]
    ensures |s.pend| < NUM
  {
    hide Requests, Busy, Apart, Descriptors, Rings;
    NotQueued(s, h);
    HeadsBelow(s);
    DistinctWithout(s.pend, NUM, h);
  }

  lemma SubmitRings(s: State, b: nat, write: bool, block: nat, h: nat, c1: nat, c2: nat)
    requires Inv(s) && CanSubmit(s, b, block, h, c1, c2)
    ensures Rings(Submit(s, b, write, block, h, c1, c2))
  {
    hide Requests, Busy, Apart, Descriptors, Heads, Descs;
    PendRoom(s, h);
    RingPush(s.avail, s.takenIdx, s.availIdx, s.pend, h);
  }

  lemma SubmitKeeps(s: State, b: nat, write: bool, block: nat, h: nat, c1: nat, c2: nat)
    requires Inv(s) && CanSubmit(s, b, block, h, c1, c2)
    ensures Inv(Submit(s, b, write, block, h, c1, c2))
  {
    hide ReqOk, StageOk, DescOk, Heads, Rings, Descs;
    var s' := Submit(s, b, write, block, h, c1, c2);
    forall o | o in s'.reqs
      ensures ReqOk(s', o) && StageOk(s', o)
    {
      SubmitReq(s, b, write, block, h, c1, c2, o);
    }
    forall i: nat | i < NUM
      ensures DescOk(s', i)
    {
      SubmitDesc(s, b, write, block, h, c1, c2, i);
    }
    SubmitHeads(s, b, write, block, h, c1, c2);
    SubmitRings(s, b, write, block, h, c1, c2);
  }

  // the interrupt handler

  /** What the handler finds: a completed request of the buffer it reports. */
  lemma SeeOk(s: State)
    requires Inv(s) && CanSee(s)
    ensures s.comp != [] && !SeePanics(s) && s.used[s.seenIdx % NUM] == s.comp[0]
    ensures var b := s.info[s.comp[0]].b;
            HeadOk(s, s.comp[0]) && b == s.held[s.comp[0]] && b in s.reqs && s.reqs[b].h == s.comp[0] &&
                s.reqs[b].stage.Done?
  {
    hide Requests, Busy, Apart, Descriptors, Heads;
    IndexEmpty(s.seenIdx, |s.comp|);
    RingPop(s.used, s.seenIdx, s.comp);
    var h := s.comp[0];
    GetHead(s, h);
    GetReq(s, s.held[h]);
  }

  lemma SeeReq(s: State, o: int)
    requires Inv(s) && CanSee(s) && s.comp != [] && !SeePanics(s) && o in s.reqs
    ensures ReqOk(See(s), o) && StageOk(See(s), o)
  {
    hide Requests, Busy, Apart, Descriptors, Rings;
    SeeOk(s);
    GetReq(s, o);
    assert s.comp == [s.comp[0]] + s.comp[1..];
  }

  lemma SeeKeeps(s: State)
    requires Inv(s) && CanSee(s)
    ensures s.comp != [] && !SeePanics(s) && Inv(See(s))
  {
    hide ReqOk, StageOk, Descriptors, Heads, Rings, SeePanics;
    SeeOk(s);
    var s' := See(s);
    forall o | o in s'.reqs
      ensures ReqOk(s', o) && StageOk(s', o)
    {
      SeeReq(s, o);
    }
    SeeHeads(s);
    SeeRings(s);
  }

  lemma SeeHeads(s: State)
    requires Inv(s) && CanSee(s) && s.comp != [] && !SeePanics(s)
    ensures Heads(See(s)) && Descriptors(See(s))
  {
    hide Requests, Busy, Apart, Rings;
    SeeOk(s);
    var s' := See(s);
    assert s.comp == [s.comp[0]] + s'.comp;
    assert forall h :: h in s'.comp ==> h in s.comp;
    forall h | h in s.pend || h in s.taken || h in s.comp
      ensures HeadOk(s', h)
    {
      GetHead(s, h);
    }
    forall i: nat | i < NUM
      ensures DescOk(s', i)
    {
      assert DescOk(s, i);
    }
  }

  lemma SeeRings(s: State)
    requires Inv(s) && CanSee(s) && s.comp != [] && !SeePanics(s)
    ensures Rings(See(s))
  {
    hide Requests, Busy, Apart, Descriptors, Heads;
    RingPop(s.used, s.seenIdx, s.comp);
  }

  // finishing

  lemma FinishReq(s: State, b: int, o: int)
    requires Inv(s) && CanFinish(s, b) && s.reqs[b].c1 < NUM && s.reqs[b].c2 < NUM && o in s.reqs && o != b
    ensures ReqOk(Finish(s, b), o) && StageOk(Finish(s, b), o)
  {
    hide Requests, Busy, Apart, Descriptors, Rings, Heads;
    GetReq(s, b);
    GetReq(s, o);
  }

  lemma FinishDesc(s: State, b: int, i: nat)
    requires Inv(s) && CanFinish(s, b) && s.reqs[b].c1 < NUM && s.reqs[b].c2 < NUM && i < NUM
    ensures DescOk(Finish(s, b), i)
  {
    hide Requests, Busy, Apart, Descriptors, Rings, Heads;
    GetReq(s, b);
    GetDesc(s, i);
  }

  /** A finished request was in neither ring and not with the device, so its descriptors are free
      to be used again. */
  lemma FinishHeads(s: State, b: int)
    requires Inv(s) && CanFinish(s, b) && s.reqs[b].c1 < NUM && s.reqs[b].c2 < NUM
    ensures Heads(Finish(s, b))
  {
    hide Requests, Busy, Apart, Descriptors, Rings;
    GetReq(s, b);
    var s' := Finish(s, b);
    forall h | h in s.pend || h in s.taken || h in s.comp
      ensures HeadOk(s', h)
    {
      GetHead(s, h);
      GetReq(s, s.held[h]);
    }
  }

  lemma FinishKeeps(s: State, b: int)
    requires Inv(s) && CanFinish(s, b)
    ensures s.reqs[b].c1 < NUM && s.reqs[b].c2 < NUM && Inv(Finish(s, b))
  {
    hide ReqOk, StageOk, DescOk, Heads;
    GetTriple(s, b);
    var s' := Finish(s, b);
    forall o | o in s'.reqs
      ensures ReqOk(s', o) && StageOk(s', o)
    {
      FinishReq(s, b, o);
    }
    forall i: nat | i < NUM
      ensures DescOk(s', i)
    {
      FinishDesc(s, b, i);
    }
    FinishHeads(s, b);
  }

  lemma GetTriple(s: State, b: int)
    requires Inv(s) && b in s.reqs
    ensures var q := s.reqs[b]; q.h < NUM && q.c1 < NUM && q.c2 < NUM && q.h != q.c1 && q.h != q.c2 && q.c1 != q.c2
  {
    GetReq(s, b);
  }

  // the device

  lemma TakeOk(s: State)
    requires Inv(s) && CanTake(s)
    ensures s.pend != [] && s.avail[s.takenIdx % NUM] == s.pend[0]
    ensures HeadOk(s, s.pend[0]) && s.reqs[s.held[s.pend[0]]].stage.Pending?
  {
    hide Requests, Busy, Apart, Descriptors, Heads;
    IndexEmpty(s.takenIdx, |s.pend|);
    RingPop(s.avail, s.takenIdx, s.pend);
    GetHead(s, s.pend[0]);
    GetReq(s, s.held[s.pend[0]]);
  }

  lemma TakeReq(s: State, o: int)
    requires Inv(s) && CanTake(s) && s.pend != [] && o in s.reqs
    ensures ReqOk(Take(s), o) && StageOk(Take(s), o)
  {
    hide Requests, Busy, Apart, Descriptors, Rings;
    TakeOk(s);
    GetReq(s, o);
    assert s.pend == [s.pend[0]] + s.pend[1..];
  }

  lemma TakeHeads(s: State)
    requires Inv(s) && CanTake(s) && s.pend != []
    ensures Heads(Take(s)) && Descriptors(Take(s))
  {
    hide Requests, Busy, Apart, Rings;
    TakeOk(s);
    var s' := Take(s);
    assert s.pend == [s.pend[0]] + s'.pend;
    assert forall h :: h in s'.pend ==> h in s.pend;
    forall h | h in s.pend || h in s.taken || h in s.comp
      ensures HeadOk(s', h)
    {
      GetHead(s, h);
    }
    forall i: nat | i < NUM
      ensures DescOk(s', i)
    {
      assert DescOk(s, i);
    }
  }

  lemma TakeRings(s: State)
    requires Inv(s) && CanTake(s) && s.pend != []
    ensures Rings(Take(s))
  {
    hide Requests, Busy, Apart, Descriptors, Heads;
    RingPop(s.avail, s.takenIdx, s.pend);
  }

  lemma TakeKeeps(s: State)
    requires Inv(s) && CanTake(s)
    ensures s.pend != [] && Inv(Take(s))
  {
    hide ReqOk, StageOk, Descriptors, Heads, Rings;
    TakeOk(s);
    var s' := Take(s);
    forall o | o in s'.reqs
      ensures ReqOk(s', o) && StageOk(s', o)
    {
      TakeReq(s, o);
    }
    TakeHeads(s);
    TakeRings(s);
  }

  /** Whatever chain the device works on, it finds a request as the driver wrote it. */
  lemma DeviceFindsRequest(s: State, h: nat)
    requires Inv(s) && h in s.taken
    ensures ChainOk(s, h) && HeadOk(s, h)
    ensures var b := s.held[h];
            && s.desc[s.desc[h].next].addr == Data(b) && s.ops[h].write == s.reqs[b].write
            && s.ops[h].sector / (BSIZE / 512) == s.reqs[b].block && s.reqs[b].stage.Taken?
  {
    hide Requests, Busy, Apart, Descriptors, Heads, Rings;
    GetHead(s, h);
    GetReq(s, s.held[h]);
    SectorBlock(s.reqs[s.held[h]].block);
  }

  /** The sector leads back to the block if and only if it does not wrap around: block 0x8000_0000
      is written to block 0. */
  lemma SectorBlock(block: nat)
    ensures Sector(block) % (BSIZE / 512) == 0
    ensures Sector(block) / (BSIZE / 512) == block <==> block < BLOCKS
  {
    var x, m := block * 2, 0x1_0000_0000;
    assert x % m == x - m * (x / m);
    assert x % m == 2 * (block - BLOCKS * (x / m));
  }

  lemma CompleteReq(s: State, h: nat, o: int)
    requires Inv(s) && h in s.taken && ChainOk(s, h) && o in s.reqs
    ensures ReqOk(Complete(s, h), o) && StageOk(Complete(s, h), o)
  {
    hide Requests, Busy, Descriptors, Rings, ChainOk;
    DeviceFindsRequest(s, h);
    GetReq(s, o);
    GetReq(s, s.held[h]);
  }

  lemma CompleteHeads(s: State, h: nat)
    requires Inv(s) && h in s.taken && ChainOk(s, h)
    ensures Heads(Complete(s, h)) && Descriptors(Complete(s, h))
  {
    hide Requests, Busy, Apart, Rings, ChainOk;
    DeviceFindsRequest(s, h);
    GetReq(s, s.held[h]);
    var s' := Complete(s, h);
    forall i: nat | i < NUM
      ensures DescOk(s', i)
    {
      assert DescOk(s, i);
    }
  }

  lemma CompRoom(s: State, h: nat)
    requires Inv(s) && h in s.taken
    ensures h < NUM && |s.comp| < NUM
  {
    hide Requests, Busy, Apart, Descriptors, Rings;
    DeviceFindsRequest(s, h);
    GetReq(s, s.held[h]);
    HeadsBelow(s);
    DistinctWithout(s.comp, NUM, h);
  }

  lemma CompleteRings(s: State, h: nat)
    requires Inv(s) && h in s.taken && ChainOk(s, h)
    ensures Rings(Complete(s, h))
  {
    hide Requests, Busy, Apart, Descriptors, Heads, ChainOk;
    CompRoom(s, h);
    RingPush(s.used, s.seenIdx, s.usedIdx, s.comp, h);
  }

  lemma CompleteKeeps(s: State, h: nat)
    requires Inv(s) && h in s.taken
    ensures ChainOk(s, h) && Inv(Complete(s, h))
  {
    hide ReqOk, StageOk, Descriptors, Heads, Rings, ChainOk;
    DeviceFindsRequest(s, h);
    var s' := Complete(s, h);
    forall o | o in s'.reqs
      ensures ReqOk(s', o) && StageOk(s', o)
    {
      CompleteReq(s, h, o);
    }
    CompleteHeads(s, h);
    CompleteRings(s, h);
  }

  // whole runs

  /** `Touch` is the kernel changing a buffer that is in no request. */
  datatype Step =
    | DoSubmit(buf: nat, write: bool, block: nat, h: nat, c1: nat, c2: nat) | DoSee | DoFinish(b: int)
    | DoTake | DoComplete(h: nat) | Touch(b: int, data: Block)

  predicate Possible(s: State, step: Step) {
    && Shape(s)
    && match step
       case DoSubmit(b, _, block, h, c1, c2) => CanSubmit(s, b, block, h, c1, c2)
       case DoSee => CanSee(s)
       case DoFinish(b) => CanFinish(s, b)
       case DoTake => CanTake(s)
       case DoComplete(h) => h in s.taken
       case Touch(b, _) => b in s.bufs && b !in s.reqs
  }

  /** The step finds what the code and the device rely on; otherwise one of the panics "free_desc",
      "virtio_disk_intr status" or a device error is next. */
  predicate Sound(s: State, step: Step)
    requires Possible(s, step)
  {
    match step
    case DoSubmit(_, _, _, _, _, _) => true
    case DoSee => !SeePanics(s) && s.comp != []
    case DoFinish(b) =>
      var q := s.reqs[b];
      q.c1 < NUM && q.c2 < NUM && q.h != q.c1 && q.h != q.c2 && q.c1 != q.c2 && !s.free[q.h] && !s.free[q.c1] &&
          !s.free[q.c2]
    case DoTake => s.pend != []
    case DoComplete(h) => ChainOk(s, h)
    case Touch(_, _) => true
  }

  function Do(s: State, step: Step): State
    requires Possible(s, step) && Sound(s, step)
  {
    match step
    case DoSubmit(b, write, block, h, c1, c2) => Submit(s, b, write, block, h, c1, c2)
    case DoSee => See(s)
    case DoFinish(b) => Finish(s, b)
    case DoTake => Take(s)
    case DoComplete(h) => Complete(s, h)
    case Touch(b, data) => s.(bufs := s.bufs[b := data])
  }

  lemma TouchKeeps(s: State, b: int, data: Block)
    requires Inv(s) && b in s.bufs && b !in s.reqs
    ensures Inv(s.(bufs := s.bufs[b := data]))
  {
    hide Heads, Rings, Descriptors;
    var s' := s.(bufs := s.bufs[b := data]);
    forall o | o in s'.reqs
      ensures ReqOk(s', o) && StageOk(s', o)
    {
      GetReq(s, o);
    }
    QueuesSame(s, s');
  }

  lemma QueuesSame(s: State, s': State)
    requires Inv(s) && s' == s.(bufs := s'.bufs)
    ensures Descriptors(s') && Heads(s') && Rings(s')
  {
    hide Requests, Busy, Apart;
    forall i: nat | i < NUM
      ensures DescOk(s', i)
    {
      GetDesc(s, i);
    }
    forall h | h in s.pend || h in s.taken || h in s.comp
      ensures HeadOk(s', h)
    {
      GetHead(s, h);
    }
  }

  /** Every step that is possible is sound and keeps the invariant. */
  lemma StepKeeps(s: State, step: Step)
    requires Inv(s) && Possible(s, step)
    ensures Sound(s, step) && Inv(Do(s, step))
  {
    hide Inv, Shape, CanSubmit, Submit, See, Finish, Take, Complete, SeePanics, ChainOk;
    match step
    case DoSubmit(b, write, block, h, c1, c2) => SubmitKeeps(s, b, write, block, h, c1, c2);
    case DoSee => SeeKeeps(s);
    case DoFinish(b) => FinishKeeps(s, b); FinishSound(s, b);
    case DoTake => TakeKeeps(s);
    case DoComplete(h) => CompleteKeeps(s, h);
    case Touch(b, data) => TouchKeeps(s, b, data);
  }

  lemma FinishSound(s: State, b: int)
    requires Inv(s) && b in s.reqs
    ensures var q := s.reqs[b];
            && q.h < NUM && q.c1 < NUM && q.c2 < NUM && q.h != q.c1 && q.h != q.c2 && q.c1 != q.c2
            && !s.free[q.h] && !s.free[q.c1] && !s.free[q.c2]
  {
    hide Requests, Busy, Apart, Descriptors, Heads, Rings;
    GetReq(s, b);
    GetDesc(s, s.reqs[b].h);
    GetDesc(s, s.reqs[b].c1);
    GetDesc(s, s.reqs[b].c2);
  }

  /** The steps happen one after the other, each possible and sound when its turn comes. */
  ghost predicate Runs(s: State, steps: seq<Step>)
    decreases |steps|
  {
    steps == [] || (Possible(s, steps[0]) && Sound(s, steps[0]) && Runs(Do(s, steps[0]), steps[1..]))
  }

  ghost function After(s: State, steps: seq<Step>): State
    requires Runs(s, steps)
    decreases |steps|
  {
    if steps == [] then s else After(Do(s, steps[0]), steps[1..])
  }

  lemma {:induction false} RunKeeps(s: State, steps: seq<Step>)
    requires Inv(s) && Runs(s, steps)
    ensures Inv(After(s, steps))
    decreases |steps|
  {
    hide Inv, Possible, Sound, Do;
    if steps != [] {
      StepKeeps(s, steps[0]);
      RunKeeps(Do(s, steps[0]), steps[1..]);
    }
  }

  /** virtio_disk_init, from any position of the 16-bit indices. */
  function Boot(bufs: map<int, Block>, disk: map<nat, Block>, avail: nat, used: nat): State {
    State(Copies(NUM, Desc(Null, 0, 0, 0)), Copies(NUM, 0), avail % WRAP, Copies(NUM, 0), used % WRAP,
          Copies(NUM, true), used % WRAP, Copies(NUM, Info(NOBUF, 0)), Copies(NUM, Op(false, 0)),
          {}, bufs, map[], avail % WRAP, disk, Copies(NUM, NOBUF), [], {}, [])
  }

  lemma BootKeeps(bufs: map<int, Block>, disk: map<nat, Block>, avail: nat, used: nat)
    ensures Inv(Boot(bufs, disk, avail, used))
  {
  }

  /** After any run, in any order of the device and across any wrap-around of the indices, whatever
      is possible next meets no panic: the device finds every chain intact, the handler finds a
      completed request, and no descriptor is freed twice. */
  lemma NeverPanics(bufs: map<int, Block>, disk: map<nat, Block>, avail: nat, used: nat, steps: seq<Step>, step: Step)
    requires Runs(Boot(bufs, disk, avail, used), steps) && Possible(After(Boot(bufs, disk, avail, used), steps), step)
    ensures Sound(After(Boot(bufs, disk, avail, used), steps), step)
  {
    hide Inv, Possible, Sound, Do, Boot;
    BootKeeps(bufs, disk, avail, used);
    RunKeeps(Boot(bufs, disk, avail, used), steps);
    StepKeeps(After(Boot(bufs, disk, avail, used), steps), step);
  }

  /** Requests in flight use disjoint triples of descriptors that are not free. */
  lemma ChainsAreDisjoint(s: State, b: int, o: int)
    requires Inv(s) && b in s.reqs && o in s.reqs && b != o
    ensures var q, p := s.reqs[b], s.reqs[o];
            {q.h, q.c1, q.c2} !! {p.h, p.c1, p.c2} && q.block != p.block
  {
    hide Requests, Busy, Descriptors, Heads, Rings;
    GetReq(s, b);
    GetReq(s, o);
  }

  /** When virtio_disk_rw returns, a read has the block as it was when the request was made, and a
      write has put the buffer as it was then on the disk; the device is done with its chain. */
  lemma RequestIsServed(s: State, b: int)
    requires Inv(s) && CanFinish(s, b)
    ensures var q := s.reqs[b];
            && b in s.bufs && q.block in s.disk && s.bufs[b] == q.data && s.disk[q.block] == q.data
            && q.h !in s.pend && q.h !in s.taken && q.h !in s.comp
  {
    hide Requests, Busy, Apart, Descriptors, Heads, Rings;
    GetReq(s, b);
  }

  // each request is taken, completed and reported once

  /** What a step does to the request of buffer b. */
  datatype Event = Submits | Takes | Completes | Reports | Finishes

  predicate Is(s: State, step: Step, b: int, e: Event)
    requires Possible(s, step)
  {
    match e
    case Submits => step.DoSubmit? && step.buf == b
    case Takes => step.DoTake? && HolderOf(s, s.avail[s.takenIdx % NUM]) == b
    case Completes => step.DoComplete? && HolderOf(s, step.h) == b
    case Reports => step.DoSee? && Reported(s) == b
    case Finishes => step.DoFinish? && step.b == b
  }

  /** The buffer whose thread the interrupt handler wakes next. */
  function Reported(s: State): int
    requires Shape(s)
  {
    var id := s.used[s.seenIdx % NUM];
    if id < NUM then s.info[id].b else NOBUF
  }

  /** How often something happens to buffer b in a run. */
  ghost function Count(s: State, steps: seq<Step>, b: int, e: Event): nat
    requires Runs(s, steps)
    decreases |steps|
  {
    if steps == [] then 0
    else (if Is(s, steps[0], b, e) then 1 else 0) + Count(Do(s, steps[0]), steps[1..], b, e)
  }

  /** The same, for the request that b is in now. */
  function Past(s: State, b: int, e: Event): nat {
    if b !in s.reqs then 0
    else match e
         case Submits => 1
         case Takes => if s.reqs[b].stage.Pending? then 0 else 1
         case Completes => if s.reqs[b].stage.Done? || s.reqs[b].stage.Seen? then 1 else 0
         case Reports => if s.reqs[b].stage.Seen? then 1 else 0
         case Finishes => 0
  }

  function Bit(x: bool): nat {
    if x then 1 else 0
  }

  /** A step moves the request of one buffer to its next stage and no request back; a request ends
      only when it has been through all of them. */
  lemma StepCounts(s: State, step: Step, b: int, e: Event)
    requires Inv(s) && Possible(s, step) && Sound(s, step) && e != Finishes
    ensures Past(s, b, e) + Bit(Is(s, step, b, e)) == Past(Do(s, step), b, e) + Bit(Is(s, step, b, Finishes))
  {
    hide Requests, Busy, Apart, Descriptors, Heads, Rings, ChainOk;
    match step
    case DoSubmit(c, write, block, h, c1, c2) =>
    case DoSee => SeeOk(s);
    case DoFinish(c) => GetReq(s, c);
    case DoTake => TakeOk(s);
    case DoComplete(h) => DeviceFindsRequest(s, h);
    case Touch(c, data) =>
  }

  lemma {:induction false} RunCounts(s: State, steps: seq<Step>, b: int, e: Event)
    requires Inv(s) && Runs(s, steps) && e != Finishes
    ensures Past(s, b, e) + Count(s, steps, b, e) == Past(After(s, steps), b, e) + Count(s, steps, b, Finishes)
    decreases |steps|
  {
    hide Inv, Possible, Sound, Do, Past, Is;
    if steps != [] {
      StepKeeps(s, steps[0]);
      StepCounts(s, steps[0], b, e);
      RunCounts(Do(s, steps[0]), steps[1..], b, e);
    }
  }

  /** In every run from boot, requests of a buffer are submitted, taken, completed, reported and
      finished equally often, up to the one it may be in at the end. */
  lemma EventsBalance(bufs: map<int, Block>, disk: map<nat, Block>, avail: nat, used: nat, steps: seq<Step>, b: int,
                      e: Event)
    requires Runs(Boot(bufs, disk, avail, used), steps) && e != Finishes
    ensures var s0 := Boot(bufs, disk, avail, used);
            Count(s0, steps, b, e) == Count(s0, steps, b, Finishes) + Past(After(s0, steps), b, e)
  {
    hide Inv, Possible, Sound, Do, Is;
    BootKeeps(bufs, disk, avail, used);
    RunCounts(Boot(bufs, disk, avail, used), steps, b, e);
  }

  /** Between the submission of a request and the return of virtio_disk_rw, the device takes and
      completes it exactly once and the handler reports it exactly once, wherever this happens in a
      run and whatever else does. */
  lemma ServedExactlyOnce(bufs: map<int, Block>, disk: map<nat, Block>, avail: nat, used: nat,
                          before: seq<Step>, submit: Step, during: seq<Step>, e: Event)
    requires Runs(Boot(bufs, disk, avail, used), before) && submit.DoSubmit?
    requires var s := After(Boot(bufs, disk, avail, used), before);
             && Possible(s, submit) && Sound(s, submit) && Runs(Do(s, submit), during)
             && Possible(After(Do(s, submit), during), DoFinish(submit.buf))
             && Count(Do(s, submit), during, submit.buf, Finishes) == 0
    requires e == Takes || e == Completes || e == Reports
    ensures Count(Do(After(Boot(bufs, disk, avail, used), before), submit), during, submit.buf, e) == 1
  {
    hide Inv, Possible, Sound, Is, Boot, Submit, Do;
    BootKeeps(bufs, disk, avail, used);
    RunKeeps(Boot(bufs, disk, avail, used), before);
    var s := After(Boot(bufs, disk, avail, used), before);
    StepKeeps(s, submit);
    var s1 := Do(s, submit);
    RunKeeps(s1, during);
    RunCounts(s1, during, submit.buf, e);
    JustSubmitted(s, submit, e);
    AboutToFinish(After(s1, during), submit.buf, e);
  }

  lemma JustSubmitted(s: State, step: Step, e: Event)
    requires step.DoSubmit? && Possible(s, step) && Sound(s, step) && e != Submits
    ensures Past(Do(s, step), step.buf, e) == 0
  {
  }

  lemma AboutToFinish(s: State, b: int, e: Event)
    requires Inv(s) && Possible(s, DoFinish(b)) && e != Finishes
    ensures Past(s, b, e) == 1
  {
    hide Requests, Busy, Apart, Descriptors, Heads, Rings;
    GetReq(s, b);
  }
}
