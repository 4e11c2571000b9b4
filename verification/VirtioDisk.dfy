/** The loops of the disk driver (kernel/virtio_disk.c): finding and giving back descriptors, and
    the interrupt handler. */
module VirtioDisk {
  import opened Bytes
  import opened Virtio

  predicate ThreeFree(free: seq<bool>, h: nat, c1: nat, c2: nat) {
    h < |free| && c1 < |free| && c2 < |free| && h != c1 && h != c2 && c1 != c2 && free[h] && free[c1] && free[c2]
  }

  /** Descriptors in use are as they were. */
  predicate InUseSame(s: State, s': State)
    requires Shape(s) && Shape(s')
  {
    forall i :: 0 <= i < NUM && !s.free[i] ==> s'.desc[i] == s.desc[i]
  }

  class Disk {
    var s: State

    /** virtio_disk_init. */
    constructor (bufs: map<int, Block>, disk: map<nat, Block>)
      ensures Inv(s) && s.bufs == bufs && s.disk == disk && s.reqs == map[]
    {
      BootKeeps(bufs, disk, 0, 0);
      s := Boot(bufs, disk, 0, 0);
    }

    /** alloc_desc: the first free descriptor, or -1. */
    method AllocDesc() returns (r: int)
      requires Shape(s)
      modifies this
      ensures Shape(s)
      ensures r == -1 ==> s == old(s) && forall i :: 0 <= i < NUM ==> !s.free[i]
      ensures r != -1 ==>
                && 0 <= r < NUM && old(s).free[r] && s == old(s).(free := old(s).free[r := false])
                && forall i :: 0 <= i < r ==> !old(s).free[i]
    {
      for i := 0 to NUM
        invariant s == old(s) && forall j :: 0 <= j < i ==> !s.free[j]
      {
        if s.free[i] {
          s := s.(free := s.free[i := false]);
          return i;
        }
      }
      return -1;
    }

    /** free_desc; its callers must not free what is out of range or free already. */
    method FreeDesc(i: nat)
      requires Shape(s) && i < NUM && !s.free[i]
      modifies this
      ensures Shape(s) && s == old(s).(desc := Freed(old(s).desc, i), free := old(s).free[i := true])
    {
      s := s.(desc := s.desc[i := Desc(Null, 0, 0, 0)], free := s.free[i := true]);
    }

    /** alloc3_desc: three descriptors, or none. */
    method Alloc3Desc() returns (ok: bool, h: nat, c1: nat, c2: nat)
      requires Shape(s)
      modifies this
      ensures Shape(s)
      ensures ok ==> Three(old(s), h, c1, c2) && s == old(s).(free := old(s).free[h := false][c1 := false][c2 := false])
      ensures !ok ==>
                && s == old(s).(desc := s.desc) && InUseSame(old(s), s)
                && forall x: nat, y: nat, z: nat :: !ThreeFree(s.free, x, y, z)
    {
      ghost var s0 := s;
      h, c1, c2 := 0, 0, 0;
      var a := AllocDesc();
      if a == -1 {
        return false, h, c1, c2;
      }
      var b := AllocDesc();
      if b == -1 {
        NoneBut(s0.free, s.free, {a});
        FreeDesc(a);
        Restored(s0, s, {a});
        return false, h, c1, c2;
      }
      var c := AllocDesc();
      if c == -1 {
        NoneBut(s0.free, s.free, {a, b});
        FreeDesc(a);
        FreeDesc(b);
        Restored(s0, s, {a, b});
        return false, h, c1, c2;
      }
      return true, a, b, c;
    }

    /** free_chain: follow the chain and free each descriptor. */
    method FreeChain(first: nat, ghost q: Req)
      requires Shape(s) && first == q.h && q.h < NUM && q.c1 < NUM && q.c2 < NUM && q.h != q.c1 && q.h != q.c2
      requires q.c1 != q.c2
      requires !s.free[q.h] && !s.free[q.c1] && !s.free[q.c2]
      requires s.desc[q.h].flags % 2 == F_NEXT && s.desc[q.h].next == q.c1
      requires s.desc[q.c1].flags % 2 == F_NEXT && s.desc[q.c1].next == q.c2 && s.desc[q.c2].flags % 2 != F_NEXT
      modifies this
      ensures Shape(s)
      ensures s == old(s).(desc := Freed(Freed(Freed(old(s).desc, q.h), q.c1), q.c2),
                           free := old(s).free[q.h := true][q.c1 := true][q.c2 := true])
    {
      ghost var s0 := s;
      ghost var k := 0;
      var i := first;
      while true
        invariant 0 <= k <= 2 && i == (if k == 0 then q.h else if k == 1 then q.c1 else q.c2)
        invariant s == ChainFreed(s0, q, k)
        decreases 2 - k
      {
        var flag, next := s.desc[i].flags, s.desc[i].next;
        FreeDesc(i);
        if flag % 2 == F_NEXT {
          i := next;
        } else {
          break;
        }
        k := k + 1;
      }
    }

    /** virtio_disk_rw up to the point where it waits; false if it has to wait for descriptors. */
    method Start(b: nat, write: bool, block: nat) returns (ok: bool, ghost h: nat, ghost c1: nat, ghost c2: nat)
      requires Inv(s) && b !in s.reqs && b !in s.busy && b in s.bufs && block in s.disk && block < BLOCKS
      requires forall o :: o in s.reqs ==> s.reqs[o].block != block
      modifies this
      ensures ok ==> CanSubmit(old(s), b, block, h, c1, c2) && s == Submit(old(s), b, write, block, h, c1, c2) && Inv(s)
      ensures !ok ==>
                s == old(s).(desc := s.desc) && Inv(s) && forall x: nat, y: nat, z: nat :: !ThreeFree(s.free, x, y, z)
    {
      hide Inv;
      ghost var s0 := s;
      InvShape(s0);
      var x, y, z;
      ok, x, y, z := Alloc3Desc();
      h, c1, c2 := x, y, z;
      if !ok {
        DescKeeps(s0, s);
        return;
      }
      SubmitKeeps(s0, b, write, block, x, y, z);
      s := s.(ops := s.ops[x := Op(write, block * (BSIZE / 512) % 0x1_0000_0000)]);
      s := s.(desc := s.desc[x := Desc(Header(x), 16, F_NEXT, y)]);
      s := s.(desc := s.desc[y := Desc(Data(b), BSIZE, (if write then 0 else F_WRITE) + F_NEXT, z)]);
      s := s.(desc := s.desc[z := Desc(StatusByte(x), 1, F_WRITE, 0)]);
      s := s.(info := s.info[x := Info(b, 0xff)], busy := s.busy + {b});
      s := s.(avail := s.avail[s.availIdx % NUM := x]);
      s := s.(availIdx := (s.availIdx + 1) % WRAP, pend := s.pend + [x]);
      s := s.(reqs := s.reqs[b := Req(x, y, z, write, block, if write then s.bufs[b] else s.disk[block], Pending)],
              held := s.held[x := b][y := b][z := b]);
    }

    /** The rest of virtio_disk_rw, when the buffer belongs to the kernel again. */
    method End(b: nat)
      requires Inv(s) && CanFinish(s, b)
      modifies this
      ensures old(s).reqs[b].c1 < NUM && old(s).reqs[b].c2 < NUM && s == Finish(old(s), b) && Inv(s)
    {
      hide Inv;
      ghost var s0 := s;
      InvShape(s0);
      FinishKeeps(s0, b);
      FinishSound(s0, b);
      ChainShape(s0, b);
      var q := s.reqs[b];
      s := s.(info := s.info[q.h := s.info[q.h].(b := NOBUF)]);
      FreeChain(q.h, q);
      s := s.(held := s.held[q.h := NOBUF][q.c1 := NOBUF][q.c2 := NOBUF], reqs := s.reqs - {b});
    }

    /** virtio_disk_intr: every completed request is reported to its buffer's thread. */
    method Intr()
      requires Inv(s)
      modifies this
      ensures Inv(s) && s.seenIdx == s.usedIdx && s.comp == []
      ensures s.reqs.Keys == old(s).reqs.Keys && s.taken == old(s).taken && s.pend == old(s).pend
      ensures forall b :: b in s.reqs ==> (b in s.busy <==> b in old(s).busy && !old(s).reqs[b].stage.Done?)
    {
      hide Inv, See, SeePanics;
      ghost var s0 := s;
      InvShape(s);
      while s.seenIdx != s.usedIdx
        invariant Inv(s) && Shape(s) && s.reqs.Keys == s0.reqs.Keys && s.taken == s0.taken && s.pend == s0.pend
        invariant forall b :: b in s.reqs && s0.reqs[b].stage != s.reqs[b].stage ==>
                    s0.reqs[b].stage.Done? && s.reqs[b].stage.Seen?
        decreases |s.comp|
      {
        SeeKeeps(s);
        SeeMoves(s);
        ghost var next := See(s);
        SeeIs(s);
        var id := s.used[s.seenIdx % NUM];
        var b := s.info[id].b;
        s := s.(busy := s.busy - {b}, comp := s.comp[1..], reqs := Move(s, b, Seen));
        s := s.(seenIdx := (s.seenIdx + 1) % WRAP);
        assert s == next;
        InvShape(s);
      }
      AllSeen(s0, s);
    }
  }

  /** The descriptors of a chain freed one by one. */
  function ChainFreed(s: State, q: Req, k: nat): State
    requires Shape(s) && q.h < NUM && q.c1 < NUM && q.c2 < NUM && k <= 2
  {
    if k == 0 then s
    else if k == 1 then s.(desc := Freed(s.desc, q.h), free := s.free[q.h := true])
    else s.(desc := Freed(Freed(s.desc, q.h), q.c1), free := s.free[q.h := true][q.c1 := true])
  }

  lemma NoneBut(f: seq<bool>, f': seq<bool>, taken: set<int>)
    requires |f| == |f'| && (forall i :: 0 <= i < |f'| ==> !f'[i])
    requires forall i :: 0 <= i < |f| && i !in taken ==> f[i] == f'[i]
    ensures forall i :: 0 <= i < |f| && i !in taken ==> !f[i]
  {
    forall i | 0 <= i < |f| && i !in taken
      ensures !f[i]
    {
      assert f[i] == f'[i];
    }
  }

  /** Taking descriptors and giving them back leaves the free ones free. */
  lemma Restored(s0: State, s: State, taken: set<int>)
    requires Shape(s0) && Shape(s) && |taken| <= 2 && s == s0.(desc := s.desc, free := s.free)
    requires forall i :: i in taken ==> 0 <= i < NUM && s0.free[i] && s.free[i]
    requires forall i :: 0 <= i < NUM && i !in taken ==> s.free[i] == s0.free[i] == false && s.desc[i] == s0.desc[i]
    ensures s == s0.(desc := s.desc) && InUseSame(s0, s) && forall x: nat, y: nat, z: nat :: !ThreeFree(s.free, x, y, z)
  {
    assert s.free == s0.free;
    forall x: nat, y: nat, z: nat
      ensures !ThreeFree(s.free, x, y, z)
    {
      if x < NUM && y < NUM && z < NUM && x in taken && y in taken && z in taken && x != y && x != z && y != z {
        assert {x, y, z} <= taken;
        Sets.SubsetSize({x, y, z}, taken);
      }
    }
  }

  lemma InvShape(s: State)
    requires Inv(s)
    ensures Shape(s)
  {
  }

  /** Free descriptors may hold anything. */
  lemma DescKeeps(s0: State, s: State)
    requires Inv(s0) && Shape(s) && s == s0.(desc := s.desc) && InUseSame(s0, s)
    ensures Inv(s)
  {
    hide Rings, Requests, Busy, Apart, Descriptors, Heads;
    forall o | o in s.reqs
      ensures ReqOk(s, o) && StageOk(s, o)
    {
      GetReq(s0, o);
      GetDesc(s0, s0.reqs[o].h);
      GetDesc(s0, s0.reqs[o].c1);
      GetDesc(s0, s0.reqs[o].c2);
    }
    forall i: nat | i < NUM
      ensures DescOk(s, i)
    {
      GetDesc(s0, i);
    }
    forall h | h in s.pend || h in s.taken || h in s.comp
      ensures HeadOk(s, h)
    {
      GetHead(s0, h);
    }
    DescParts(s0, s);
  }

  lemma DescParts(s0: State, s: State)
    requires Inv(s0) && Shape(s) && s == s0.(desc := s.desc)
    requires forall o :: o in s.reqs ==> ReqOk(s, o) && StageOk(s, o)
    requires forall i: nat :: i < NUM ==> DescOk(s, i)
    requires forall h :: h in s.pend || h in s.taken || h in s.comp ==> HeadOk(s, h)
    ensures Inv(s)
  {
    hide ReqOk, StageOk, DescOk, HeadOk;
  }

  lemma ChainShape(s: State, b: int)
    requires Inv(s) && b in s.reqs
    ensures var q := s.reqs[b];
            && q.h < NUM && q.c1 < NUM && q.c2 < NUM
            && s.desc[q.h].flags % 2 == F_NEXT && s.desc[q.h].next == q.c1
            && s.desc[q.c1].flags % 2 == F_NEXT && s.desc[q.c1].next == q.c2 && s.desc[q.c2].flags % 2 != F_NEXT
  {
    hide Requests, Busy, Apart, Descriptors, Heads, Rings;
    GetReq(s, b);
  }

  /** The handler's turn, spelled out. */
  lemma SeeIs(s: State)
    requires Shape(s) && CanSee(s) && s.comp != [] && !SeePanics(s)
    ensures s.used[s.seenIdx % NUM] < NUM
    ensures var b := s.info[s.used[s.seenIdx % NUM]].b;
            See(s) == s.(busy := s.busy - {b}, comp := s.comp[1..], reqs := Move(s, b, Seen),
                seenIdx := (s.seenIdx + 1) % WRAP)
  {
  }

  lemma SeeMoves(s: State)
    requires Inv(s) && CanSee(s) && s.comp != [] && !SeePanics(s)
    ensures var s' := See(s);
            && s'.reqs.Keys == s.reqs.Keys && s'.taken == s.taken && s'.pend == s.pend && |s'.comp| < |s.comp|
            && forall b :: b in s.reqs && s'.reqs[b].stage != s.reqs[b].stage ==>
                s.reqs[b].stage.Done? && s'.reqs[b].stage.Seen?
  {
    hide Requests, Busy, Apart, Descriptors, Heads, Rings;
    SeeOk(s);
  }

  lemma AllSeen(s0: State, s: State)
    requires Inv(s0) && Inv(s) && s.seenIdx == s.usedIdx && s.reqs.Keys == s0.reqs.Keys
    requires forall b :: b in s.reqs && s0.reqs[b].stage != s.reqs[b].stage ==>
               s0.reqs[b].stage.Done? && s.reqs[b].stage.Seen?
    ensures s.comp == []
    ensures forall b :: b in s.reqs ==> (b in s.busy <==> b in s0.busy && !s0.reqs[b].stage.Done?)
  {
    hide Requests, Busy, Apart, Descriptors, Heads;
    IndexEmpty(s.seenIdx, |s.comp|);
    forall b | b in s.reqs
      ensures b in s.busy <==> b in s0.busy && !s0.reqs[b].stage.Done?
    {
      GetReq(s0, b);
      GetReq(s, b);
    }
  }
}
