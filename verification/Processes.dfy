/** Process creation, growth, fork and exit as far as memory goes (kernel/proc.c), over the page
    allocator and the page tables. */
module Processes {
  import opened Params
  import opened Sequences
  import opened PageTable
  import opened Mappings
  import opened Teardown
  import opened Vm
  import opened ProcMemory

  ghost predicate Blank(s: Ram, r: nat) {
    forall v: nat :: v < NVPN ==> Pte(s.pages, r, v) == 0
  }

  /** Only the trampoline is mapped. */
  ghost predicate OnlyTramp(s: Ram, r: nat, boot: Boot) {
    forall v: nat :: v < NVPN ==> Pte(s.pages, r, v) == if v == TRAMP then MakePte(boot.tramp, PTE_R + PTE_X) else 0
  }

  /** The other processes are the same and have the same user memory. */
  ghost predicate OthersKept(s: Ram, procs: seq<Proc>, s': Ram, procs': seq<Proc>, i: int) {
    && |procs'| == |procs|
    && forall j :: 0 <= j < |procs| && j != i ==>
         procs'[j] == procs[j] && (procs[j].r != 0 ==> Image(s', procs[j]) == Image(s, procs[j]))
  }

  /** System calls that change memory. */
  datatype Call = Spawn | Grow(i: nat, n: int) | Fork(i: nat) | Exit(i: nat)

  /** The kernel takes n pages for good, or as many as there are. */
  method Keep(m: Memory, n: nat) returns (kept: set<nat>)
    requires m.Good() && forall p :: 0 <= p < |m.use| ==> m.use[p] == if p < m.lo then Other else Free
    modifies m
    ensures m.Good() && |m.use| == old(|m.use|)
    ensures forall p :: 0 <= p < |m.use| ==> m.use[p] == if p < m.lo || p in kept then Other else Free
    ensures forall p :: p in kept ==> m.lo <= p < |m.use|
  {
    hide Tree, FreeOk, SameMaps;
    SizesOf(m.S());
    kept := {};
    for j := 0 to n
      invariant m.Good() && |m.use| == old(|m.use|)
      invariant forall p :: 0 <= p < |m.use| ==> m.use[p] == if p < m.lo || p in kept then Other else Free
      invariant forall p :: p in kept ==> m.lo <= p < |m.use|
    {
      SizesOf(m.S());
      var p := m.Kalloc();
      if p == 0 {
        break;
      }
      kept := kept + {p};
    }
  }

  lemma BootInv(s: Ram, boot: Boot, procs: seq<Proc>)
    requires Sizes(s) && 0 < boot.tramp < s.lo && |s.use| <= PHYSTOP && procs == Copies(NPROC, EMPTY)
    requires forall p :: 0 <= p < |s.use| ==> s.use[p] == if p < s.lo || p in boot.kept then Other else Free
    requires forall p :: p in boot.kept ==> s.lo <= p < |s.use|
    ensures Inv(s, boot, procs, 0, 0)
  {
    hide User, Fixed;
    assert forall i :: 0 <= i < NPROC ==> procs[i] == EMPTY;
  }

  class Kernel {
    const mem: Memory
    const boot: Boot
    var procs: seq<Proc>

    ghost predicate Working(rest: seq<Proc>, table: nat, frame: nat)
      reads mem
    {
      mem.Good() && Inv(mem.S(), boot, rest, table, frame)
    }

    /** Between two operations: used slots are complete. */
    ghost predicate Settled()
      reads this, mem
    {
      Working(procs, 0, 0) && forall i :: 0 <= i < NPROC && procs[i].used ==> procs[i].r != 0
    }

    /** After kinit, and after the kernel took up to n pages for its page table and its stacks; with no
        process. */
    constructor (lo: nat, hi: nat, tramp: nat, n: nat)
      requires 0 < tramp < lo <= hi <= PHYSTOP
      ensures Settled() && fresh(mem) && procs == Copies(NPROC, EMPTY)
      ensures |mem.use| == hi && forall p :: lo <= p < hi ==> mem.use[p] == if p in boot.kept then Other else Free
    {
      hide Tree, FreeOk, Inv, SameMaps;
      var m := new Memory(lo, hi);
      SizesOf(m.S());
      var kept := Keep(m, n);
      mem := m;
      boot := Boot(tramp, kept);
      procs := Copies(NPROC, EMPTY);
      new;
      SizesOf(mem.S());
      BootInv(mem.S(), boot, procs);
    }

    /** proc_pagetable: a page table with trampoline and trap frame and no user memory, or 0. */
    method ProcPagetable(tf: nat, ghost rest: seq<Proc>) returns (r: nat)
      requires Working(rest, 0, tf) && tf != 0
      modifies mem
      ensures r == 0 ==> Working(rest, 0, tf) && old(|mem.free|) <= 5
      ensures r != 0 ==> Working(rest, r, tf) && User(mem.S(), r, 0) && Fixed(mem.S(), r, tf, boot)
      ensures r != 0 ==> old(|mem.free|) <= |mem.free| + 5
      ensures AllUndisturbed(old(mem.S()), mem.S(), rest)
    {
      hide Tree, FreeOk, Inv, Inserted, AllUndisturbed, Removed, Returned, OtherMaps, DataKept, Pte, MakePte, User;
      hide Fixed;
      hide Blank, OnlyTramp, NotOwned, Table0;
      ghost var s := mem.S();
      InvSizes(s, boot, rest, 0, tf);
      r := mem.Uvmcreate();
      if r == 0 {
        NothingDone(s, boot, rest, 0, tf);
        return;
      }
      ghost var s1 := mem.S();
      AfterCreate(s, s1, boot, rest, tf, r);
      assert Blank(s1, r) by { BlankIf(s1, r); }
      var ok;
      ghost var k;
      TopPages();
      BlankAt(s1, r);
      ok, k := mem.Mappages(r, TRAMPOLINE, 1, boot.tramp, PTE_R + PTE_X);
      ghost var s2 := mem.S();
      AfterInserted(s1, s2, boot, rest, r, tf, TRAMP, k, boot.tramp, PTE_R + PTE_X);
      AllTrans(s, s1, s2, rest);
      TrampMapped(s1, s2, r, k, boot);
      if !ok {
        Discard(r, rest, tf);
        AllTrans(s, s2, mem.S(), rest);
        return 0;
      }
      FrameFree(s2, r, boot);
      ok, k := mem.Mappages(r, TRAPFRAME, 1, tf, PTE_R + PTE_W);
      ghost var s3 := mem.S();
      AfterInserted(s2, s3, boot, rest, r, tf, FRAME, k, tf, PTE_R + PTE_W);
      AllTrans(s, s2, s3, rest);
      FrameMapped(s2, s3, r, k, boot, tf);
      if !ok {
        TrampNotOwned(s3, boot, rest, r, tf);
        mem.Uvmunmap(r, TRAMPOLINE, 1, false);
        ghost var s4 := mem.S();
        AfterRemoved(s3, s4, boot, rest, r, tf, TRAMP, 1, false);
        AllTrans(s, s3, s4, rest);
        TrampUnmapped(s3, s4, r, boot);
        Discard(r, rest, tf);
        AllTrans(s, s4, mem.S(), rest);
        return 0;
      }
    }

    /** uvmfree(pagetable, 0) for a page table that maps nothing. */
    method Discard(r: nat, ghost rest: seq<Proc>, ghost frame: nat)
      requires r != 0 && Working(rest, r, frame) && IsRoot(mem.S(), r) && Blank(mem.S(), r)
      modifies mem
      ensures Working(rest, 0, frame) && AllUndisturbed(old(mem.S()), mem.S(), rest)
    {
      hide Tree, FreeOk, Inv, AllUndisturbed, Returned, OtherMaps, DataKept, Pte;
      ghost var s := mem.S();
      NoPages();
      mem.Uvmfree(r, 0);
      AfterReturned(s, mem.S(), boot, rest, r, frame);
    }

    /** proc_freepagetable: unmap trampoline and trap frame, free user memory and the page table. */
    method ProcFreepagetable(r: nat, sz: nat, ghost tf: nat, ghost rest: seq<Proc>, ghost frame: nat)
      requires r != 0 && Working(rest, r, frame) && User(mem.S(), r, sz) && Fixed(mem.S(), r, tf, boot)
      requires tf < |mem.use| && !mem.use[tf].Leaf?
      modifies mem
      ensures Working(rest, 0, frame) && AllUndisturbed(old(mem.S()), mem.S(), rest)
    {
      hide Tree, FreeOk, Inv, AllUndisturbed, Removed, Returned, OtherMaps, DataKept, Pte, MakePte, User, Fixed;
      hide NotOwned, Up;
      ghost var s := mem.S();
      UserRoot(s, r, sz);
      TopPages();
      TopNotOwned(s, boot, rest, r, frame, tf);
      mem.Uvmunmap(r, TRAMPOLINE, 1, false);
      ghost var s1 := mem.S();
      AfterRemoved(s, s1, boot, rest, r, frame, TRAMP, 1, false);
      TopUnmapped(s, s1, r, sz, TRAMP);
      StillFrame(s, s1, boot, r, tf);
      mem.Uvmunmap(r, TRAPFRAME, 1, false);
      ghost var s2 := mem.S();
      AfterRemoved(s1, s2, boot, rest, r, frame, FRAME, 1, false);
      AllTrans(s, s1, s2, rest);
      TopUnmapped(s1, s2, r, sz, FRAME);
      OnlyUser(s, s1, s2, r, sz);
      mem.Uvmfree(r, sz);
      AfterReturned(s2, mem.S(), boot, rest, r, frame);
      AllTrans(s, s2, mem.S(), rest);
    }

    /** freeproc: give back the trap frame and the page table, as far as they exist. */
    method Freeproc(i: nat)
      requires Working(procs, 0, 0) && i < NPROC
      modifies this`procs, mem
      ensures Working(procs, 0, 0) && procs == old(procs)[i := EMPTY]
      ensures AllUndisturbed(old(mem.S()), mem.S(), procs)
    {
      hide Tree, FreeOk, Inv, AllUndisturbed, Undisturbed, User, Fixed, SameMaps;
      ghost var s := mem.S();
      InvSizes(s, boot, procs, 0, 0);
      Out(s, boot, procs, i);
      var p := procs[i];
      ghost var rest := procs[i := Proc(true, 0, 0, 0)];
      NothingDone(s, boot, rest, p.r, p.tf);
      SlotFrame(s, boot, p);
      if p.tf != 0 {
        mem.Kfree(p.tf);
        AfterGive(s, mem.S(), boot, rest, p.r, p.tf);
      }
      procs := procs[i := p.(tf := 0)];
      ghost var s1 := mem.S();
      if p.r != 0 {
        Cleared(s, s1, boot, p);
        ProcFreepagetable(p.r, p.sz, p.tf, rest, 0);
        AllTrans(s, s1, mem.S(), rest);
      }
      procs := procs[i := EMPTY];
      EmptyOk(mem.S(), boot);
      In(mem.S(), boot, rest, i, EMPTY);
      assert rest[i := EMPTY] == procs;
      SameTables(s, mem.S(), rest, procs);
    }

    /** allocproc: a slot with a trap frame and a page table, -1 if there is no slot or no memory. */
    method Allocproc() returns (i: int)
      requires Settled()
      modifies this`procs, mem
      ensures Settled() && AllUndisturbed(old(mem.S()), mem.S(), old(procs))
      ensures i == -1 ==> procs == old(procs) && ((forall j :: 0 <= j < NPROC ==>
                procs[j].used) || old(|mem.free|) <= 6)
      ensures i != -1 ==>
                && 0 <= i < NPROC && !old(procs[i]).used && procs[i].used && procs[i].sz == 0
                && procs == old(procs)[i := procs[i]]
      ensures i != -1 ==> old(|mem.free|) <= |mem.free| + 6
    {
      hide Tree, FreeOk, Inv, AllUndisturbed, Undisturbed, User, Fixed, SameMaps;
      ghost var s := mem.S();
      InvSizes(s, boot, procs, 0, 0);
      NothingDone(s, boot, procs, 0, 0);
      i := 0;
      while i < NPROC && procs[i].used
        invariant 0 <= i <= NPROC && forall j :: 0 <= j < i ==> procs[j].used
      {
        i := i + 1;
      }
      if i == NPROC {
        return -1;
      }
      Out(s, boot, procs, i);
      assert procs[i] == EMPTY by { Vacant(s, boot, procs[i]); }
      procs := procs[i := Proc(true, 0, 0, 0)];
      ghost var rest := procs;
      SameTables(s, s, old(procs), rest);
      var tf := mem.Kalloc();
      ghost var s1 := mem.S();
      if tf != 0 {
        AfterTake(s, s1, boot, rest, tf);
        procs := procs[i := Proc(true, tf, 0, 0)];
        var r := ProcPagetable(tf, rest);
        AllTrans(s, s1, mem.S(), rest);
        SameTables(s, mem.S(), rest, old(procs));
        if r != 0 {
          procs := procs[i := Proc(true, tf, r, 0)];
          FullOk(mem.S(), boot, rest, r, tf);
          In(mem.S(), boot, rest, i, procs[i]);
          assert procs == rest[i := procs[i]];
          return;
        }
        FrameOk(mem.S(), boot, rest, tf);
        In(mem.S(), boot, rest, i, procs[i]);
        assert procs == rest[i := procs[i]];
      } else {
        BareOk(s1, boot);
        In(s1, boot, rest, i, procs[i]);
        assert procs == rest[i := procs[i]];
        SameTables(s, s1, rest, old(procs));
      }
      ghost var s2 := mem.S();
      Freeproc(i);
      assert procs == old(procs);
      AllTrans(s, s2, mem.S(), procs);
      return -1;
    }

    /** growproc: change the size of the user memory by n bytes; -1 if there is no memory. */
    method Growproc(i: nat, n: int) returns (r: int)
      requires Settled() && i < NPROC && procs[i].used && -0x8000_0000 <= n < 0x8000_0000
      modifies this`procs, mem
      ensures Settled() && OthersKept(old(mem.S()), old(procs), mem.S(), procs, i)
      ensures r == 0 || r == -1
      ensures r == -1 ==>
                && n > 0 && procs == old(procs) && Image(mem.S(), procs[i]) == Image(old(mem.S()), procs[i])
                && old(|mem.free|) <= 3 * Pages(procs[i].sz, procs[i].sz + n)
      ensures r == 0 ==>
                procs[i] == old(procs[i]).(sz := Resized(old(procs[i]).sz, n)) &&
                    Kept(old(mem.S()), old(procs[i]), mem.S(), procs[i])
      ensures r == 0 && n > 0 ==>
                Zeroed(old(mem.S()), mem.S(), procs[i].r, Up(old(procs[i]).sz), Pages(old(procs[i]).sz,
                    procs[i].sz), PTE_R + PTE_U + PTE_W)
    {
      hide Tree, FreeOk, Inv, AllUndisturbed, Undisturbed, User, Fixed, Up, PagesOf, PermsOf, Pages, Zeroed, Removed;
      hide Grows, Kept, OthersKept, SlotOk;
      ghost var s := mem.S();
      InvSizes(s, boot, procs, 0, 0);
      Out(s, boot, procs, i);
      var p := procs[i];
      ghost var rest := procs[i := Proc(true, 0, 0, 0)];
      SlotParts(s, boot, p);
      RoomToGrow(s, boot, rest, p);
      NothingDone(s, boot, rest, p.r, p.tf);
      var sz := p.sz;
      if n > 0 {
        ToGrow(s, p.r, sz, sz + n);
        sz := mem.Uvmalloc(p.r, sz, sz + n, PTE_W);
        if sz == 0 {
          AfterGrows(s, mem.S(), boot, rest, p.r, p.tf);
          GrowsApart(s, mem.S(), p.r);
          Unchanged(s, mem.S(), boot, procs, i);
          return -1;
        }
        AfterGrowth(s, mem.S(), boot, rest, p, sz, PTE_R + PTE_U + PTE_W);
      } else if n < 0 {
        ToShrink(s, p.r, sz, (sz + n) % 0x1_0000_0000_0000_0000);
        sz := mem.Uvmdealloc(p.r, sz, (sz + n) % 0x1_0000_0000_0000_0000);
        AfterShrink(s, mem.S(), boot, rest, p, (p.sz + n) % 0x1_0000_0000_0000_0000);
      } else {
        KeptSame(s, p);
      }
      procs := procs[i := p.(sz := sz)];
      FrameStays(mem.S(), boot, rest, p.r, p.tf);
      Whole(mem.S(), boot, procs[i]);
      In(mem.S(), boot, rest, i, procs[i]);
      assert procs == rest[i := procs[i]];
      KeptOthers(s, mem.S(), boot, old(procs), procs, i);
      return 0;
    }

    /** fork, as far as memory goes: a child with a copy of the parent's user memory, or -1. */
    method Fork(i: nat) returns (c: int)
      requires Settled() && i < NPROC && procs[i].used
      modifies this`procs, mem
      ensures Settled() && OthersKept(old(mem.S()), old(procs), mem.S(), procs, c)
      ensures c == -1 ==> (forall j :: 0 <= j < NPROC ==> procs[j].used) || old(|mem.free|) <= 6 + 3 * Up(procs[i].sz)
      ensures c != -1 ==>
                && 0 <= c < NPROC && !old(procs[c]).used && procs[c].used && procs[c].sz == old(procs[i]).sz
                && Image(mem.S(), procs[c]) == Image(old(mem.S()), old(procs[i]))
    {
      hide Tree, FreeOk, Inv, AllUndisturbed, Undisturbed, User, Fixed, Up, PagesOf, PermsOf, Allocated, Grows;
      hide OthersKept, SlotOk;
      ghost var s := mem.S();
      InvSizes(s, boot, procs, 0, 0);
      c := Allocproc();
      ghost var s1 := mem.S();
      AllKept(s, s1, boot, old(procs));
      if c == -1 {
        return;
      }
      InvSizes(s1, boot, procs, 0, 0);
      var p, q := procs[i], procs[c];
      ghost var rest := procs[c := Proc(true, 0, 0, 0)];
      Out(s1, boot, procs, c);
      SlotParts(s1, boot, q);
      Parent(s, s1, boot, old(procs), rest, i, q);
      var ok := mem.Uvmcopy(p.r, q.r, p.sz);
      ghost var s2 := mem.S();
      if !ok {
        AfterGrows(s1, s2, boot, rest, q.r, q.tf);
        GrowsApart(s1, s2, q.r);
        Unchanged(s1, s2, boot, procs, c);
        Freeproc(c);
        Out(s, boot, old(procs), c);
        Vacant(s, boot, old(procs[c]));
        assert procs == old(procs);
        Rest(s1, s2, rest, procs, c);
        AllTrans(s, s1, s2, procs);
        AllTrans(s, s2, mem.S(), procs);
        AllKept(s, mem.S(), boot, procs);
        return -1;
      }
      procs := procs[c := q.(sz := p.sz)];
      Copied(s1, s2, boot, rest, p, q);
      FrameStays(s2, boot, rest, q.r, q.tf);
      Whole(s2, boot, procs[c]);
      In(s2, boot, rest, c, procs[c]);
      assert procs == rest[c := procs[c]];
      KeptOthers(s, s2, boot, old(procs), procs, c) by {
        assert old(procs)[c := Proc(true, 0, 0, 0)] == rest;
        RestTrans(s, s1, s2, old(procs), rest);
      }
    }

    /** Any sequence of system calls leaves every page of RAM with exactly one owner. */
    method Run(calls: seq<Call>)
      requires Settled()
      modifies this`procs, mem
      ensures Settled()
      ensures forall p: nat :: mem.lo <= p < |mem.use| ==> Accounted(mem.S(), mem.free, boot, procs, p)
    {
      for k := 0 to |calls|
        invariant Settled()
      {
        InvSizes(mem.S(), boot, procs, 0, 0);
        match calls[k] {
          case Spawn =>
            var _ := Allocproc();
          case Grow(i, n) =>
            if i < NPROC && procs[i].used && -0x8000_0000 <= n < 0x8000_0000 {
              var _ := Growproc(i, n);
            }
          case Fork(i) =>
            if i < NPROC && procs[i].used {
              var _ := Fork(i);
            }
          case Exit(i) =>
            if i < NPROC {
              Freeproc(i);
            }
        }
      }
      forall p: nat | mem.lo <= p < |mem.use|
        ensures Accounted(mem.S(), mem.free, boot, procs, p)
      {
        EveryPageHasOneOwner(mem.S(), mem.freelist, mem.free, boot, procs, p);
      }
    }
  }

  lemma InvSizes(s: Ram, boot: Boot, procs: seq<Proc>, table: nat, frame: nat)
    requires Inv(s, boot, procs, table, frame)
    ensures Sizes(s) && |procs| == NPROC && 0 < boot.tramp < s.lo && (frame != 0 ==> IsKernels(s, frame))
  {
  }

  lemma NothingDone(s: Ram, boot: Boot, procs: seq<Proc>, table: nat, frame: nat)
    requires Inv(s, boot, procs, table, frame)
    ensures AllUndisturbed(s, s, procs)
  {
    hide Pte, Owned, HasTable, HasFrame, Separate;
    forall i | 0 <= i < |procs| && procs[i].r != 0
      ensures Undisturbed(s, s, procs[i].r)
    {
      assert SlotOk(s, boot, procs[i]);
    }
  }

  lemma BlankIf(s: Ram, r: nat)
    requires forall v: nat :: v < NVPN ==> Pte(s.pages, r, v) == 0
    ensures Blank(s, r)
  {
  }

  lemma BlankAt(s: Ram, r: nat)
    requires Blank(s, r)
    ensures Pte(s.pages, r, TRAMP) == 0
  {
  }

  lemma TopPages()
    ensures TRAMPOLINE / PGSIZE == TRAMP && TRAMPOLINE % PGSIZE == 0 && TRAPFRAME / PGSIZE == FRAME
    ensures TRAPFRAME % PGSIZE == 0
  {
  }

  lemma TrampMapped(s: Ram, s': Ram, r: nat, k: nat, boot: Boot)
    requires IsRoot(s, r) && Blank(s, r) && k <= 1 && Inserted(s, s', r, TRAMP, k, boot.tramp, PTE_R + PTE_X)
    ensures IsRoot(s', r) && (k == 0 ==> Blank(s', r)) && (k == 1 ==> OnlyTramp(s', r, boot))
  {
    hide Pte, MakePte;
  }

  lemma FrameFree(s: Ram, r: nat, boot: Boot)
    requires OnlyTramp(s, r, boot)
    ensures Pte(s.pages, r, FRAME) == 0
  {
    hide Pte, MakePte;
  }

  lemma FrameMapped(s: Ram, s': Ram, r: nat, k: nat, boot: Boot, tf: nat)
    requires IsRoot(s, r) && OnlyTramp(s, r, boot) && k <= 1 && Inserted(s, s', r, FRAME, k, tf, PTE_R + PTE_W)
    ensures IsRoot(s', r) && (k == 0 ==> OnlyTramp(s', r, boot))
    ensures (k == 1 ==> User(s', r, 0) && Fixed(s', r, tf, boot))
  {
    hide Pte, MakePte;
    if k == 1 {
      NoUser(s', r);
    }
  }

  lemma PteNonzero(p: nat, perm: nat)
    requires perm < 1024
    ensures MakePte(p, perm) != 0 && Ppn(MakePte(p, perm)) == p
  {
    PteParts(p, perm);
  }

  lemma TrampNotOwned(s: Ram, boot: Boot, rest: seq<Proc>, r: nat, tf: nat)
    requires Tree(s) && Inv(s, boot, rest, r, tf) && IsRoot(s, r) && OnlyTramp(s, r, boot)
    ensures Pte(s.pages, r, TRAMP) != 0 && NotOwned(s, r, TRAMP)
  {
    hide Tree, Pte, MakePte, NotOwned, Ppn;
    InvSizes(s, boot, rest, r, tf);
    PteNonzero(boot.tramp, PTE_R + PTE_X);
    FixedNotOwned(s, r, TRAMP);
  }

  lemma TrampUnmapped(s: Ram, s': Ram, r: nat, boot: Boot)
    requires IsRoot(s, r) && OnlyTramp(s, r, boot) && Removed(s, s', r, TRAMP, 1, false)
    ensures IsRoot(s', r) && Blank(s', r)
  {
    hide Pte, MakePte, Ppn;
    forall v: nat | v < NVPN
      ensures Pte(s'.pages, r, v) == 0
    {
      assert Within(r, TRAMP, 1, r, v) <==> v == TRAMP;
    }
  }

  lemma UserRoot(s: Ram, r: nat, sz: nat)
    requires User(s, r, sz)
    ensures IsRoot(s, r) && sz <= MAXVA && Up(sz) <= FRAME
  {
    assert sz <= PGSIZE * Up(sz);
  }

  lemma TopNotOwned(s: Ram, boot: Boot, rest: seq<Proc>, r: nat, frame: nat, tf: nat)
    requires Tree(s) && Inv(s, boot, rest, r, frame) && IsRoot(s, r) && Fixed(s, r, tf, boot)
    requires tf < |s.use| && !s.use[tf].Leaf?
    ensures Pte(s.pages, r, TRAMP) != 0 && NotOwned(s, r, TRAMP)
  {
    hide Tree, Pte, MakePte, NotOwned, Ppn;
    InvSizes(s, boot, rest, r, frame);
    PteNonzero(boot.tramp, PTE_R + PTE_X);
    FixedNotOwned(s, r, TRAMP);
  }

  /** Unmapping a page above user memory leaves user memory alone. */
  lemma TopUnmapped(s: Ram, s': Ram, r: nat, sz: nat, v0: nat)
    requires Tree(s) && Tree(s') && User(s, r, sz) && FRAME <= v0 && Removed(s, s', r, v0, 1, false)
    ensures User(s', r, sz) && Pte(s'.pages, r, v0) == 0
  {
    hide Tree, Pte, Ppn, Table0, Px, Up;
    forall v: nat | v < FRAME
      ensures Pte(s'.pages, r, v) == Pte(s.pages, r, v)
    {
      assert !Within(r, v0, 1, r, v);
    }
    forall v: nat | v < Up(sz)
      ensures Owned(s', r, v)
    {
      assert Owned(s, r, v);
      TablesPersist(s, s', r, v);
    }
  }

  lemma StillFrame(s: Ram, s': Ram, boot: Boot, r: nat, tf: nat)
    requires Tree(s') && IsRoot(s, r) && Fixed(s, r, tf, boot) && Removed(s, s', r, TRAMP, 1, false)
    requires tf < |s.use| && !s.use[tf].Leaf?
    ensures Pte(s'.pages, r, FRAME) != 0 && NotOwned(s', r, FRAME)
  {
    hide Tree, Pte, Ppn, MakePte, NotOwned;
    assert !Within(r, TRAMP, 1, r, FRAME);
    PteNonzero(tf, PTE_R + PTE_W);
    FixedNotOwned(s', r, FRAME);
  }

  lemma OnlyUser(s: Ram, s1: Ram, s2: Ram, r: nat, sz: nat)
    requires User(s2, r, sz) && Pte(s1.pages, r, TRAMP) == 0 && Pte(s2.pages, r, FRAME) == 0 && IsRoot(s1, r)
    requires Removed(s1, s2, r, FRAME, 1, false)
    ensures forall v: nat :: v < NVPN && Pte(s2.pages, r, v) != 0 ==> v < Up(sz)
    ensures forall v: nat :: v < Up(sz) ==> Owned(s2, r, v)
  {
    hide Pte, Ppn, Owned, Up;
    assert !Within(r, FRAME, 1, r, TRAMP);
  }

  lemma Cleared(s: Ram, s': Ram, boot: Boot, p: Proc)
    requires Tree(s) && Tree(s') && SlotOk(s, boot, p) && p.r != 0 && Undisturbed(s, s', p.r)
    ensures User(s', p.r, p.sz) && Fixed(s', p.r, p.tf, boot)
  {
    hide Tree, User, Undisturbed, Pte, MakePte;
    UserStays(s, s', p.r, p.sz);
    PteStays(s, s', p.r, TRAMP);
    PteStays(s, s', p.r, FRAME);
  }

  lemma EmptyOk(s: Ram, boot: Boot)
    ensures SlotOk(s, boot, EMPTY)
  {
  }

  lemma SameTables(s: Ram, s': Ram, procs: seq<Proc>, procs': seq<Proc>)
    requires AllUndisturbed(s, s', procs) && |procs'| == |procs| && forall i :: 0 <= i < |procs| ==>
               procs'[i].r == procs[i].r
    ensures AllUndisturbed(s, s', procs')
  {
    hide Undisturbed;
  }

  lemma Vacant(s: Ram, boot: Boot, p: Proc)
    requires SlotOk(s, boot, p) && !p.used
    ensures p == EMPTY
  {
  }

  lemma FullOk(s: Ram, boot: Boot, rest: seq<Proc>, r: nat, tf: nat)
    requires Inv(s, boot, rest, r, tf) && tf != 0 && User(s, r, 0) && Fixed(s, r, tf, boot)
    ensures SlotOk(s, boot, Proc(true, tf, r, 0))
  {
  }

  lemma FrameOk(s: Ram, boot: Boot, rest: seq<Proc>, tf: nat)
    requires Inv(s, boot, rest, 0, tf) && tf != 0
    ensures SlotOk(s, boot, Proc(true, tf, 0, 0))
  {
  }

  lemma BareOk(s: Ram, boot: Boot)
    ensures SlotOk(s, boot, Proc(true, 0, 0, 0))
  {
  }

  // growing and shrinking

  /** The size after sbrk(n); an amount below zero that exceeds the size is ignored. */
  function Resized(sz: nat, n: int): nat {
    if sz + n >= 0 then sz + n else sz
  }

  /** The part of user memory that both sizes have is unchanged. */
  ghost predicate Kept(s: Ram, p: Proc, s': Ram, p': Proc) {
    var n := if p'.sz < p.sz then Up(p'.sz) else Up(p.sz);
    p'.r == p.r && PagesOf(s', p.r, n) == PagesOf(s, p.r, n) && PermsOf(s', p.r, n) == PermsOf(s, p.r, n)
  }

  lemma KeptSame(s: Ram, p: Proc)
    ensures Kept(s, p, s, p)
  {
  }

  lemma SlotParts(s: Ram, boot: Boot, p: Proc)
    requires SlotOk(s, boot, p) && p.r != 0
    ensures p.tf != 0 && IsKernels(s, p.tf) && User(s, p.r, p.sz) && Fixed(s, p.r, p.tf, boot) && IsRoot(s, p.r)
    ensures p.used
  {
  }

  lemma RoomToGrow(s: Ram, boot: Boot, rest: seq<Proc>, p: Proc)
    requires Tree(s) && Inv(s, boot, rest, p.r, p.tf) && User(s, p.r, p.sz)
    ensures Up(p.sz + 0x8000_0000) <= FRAME && p.sz + 0x8000_0000 <= MAXVA && p.sz < 0x1_0000_0000
  {
    hide Tree, User;
    UserFits(s, p.r, p.sz);
    assert p.sz <= PGSIZE * Up(p.sz) <= PGSIZE * PHYSTOP;
  }

  lemma ToGrow(s: Ram, r: nat, sz: nat, newsz: nat)
    requires User(s, r, sz) && sz <= newsz && newsz <= sz + 0x8000_0000 && Up(sz + 0x8000_0000) <= FRAME
    ensures forall v :: Up(sz) <= v < Up(newsz) ==> Pte(s.pages, r, v) == 0
  {
    hide Pte, Owned;
    UpMonotone(newsz, sz + 0x8000_0000);
  }

  lemma ToShrink(s: Ram, r: nat, sz: nat, newsz: nat)
    requires User(s, r, sz)
    ensures forall v :: Up(newsz) <= v < Up(sz) ==> Pte(s.pages, r, v) != 0 && Owned(s, r, v)
  {
    hide Pte, Ppn, Table0, Px, Up;
    forall v: nat | Up(newsz) <= v < Up(sz)
      ensures Pte(s.pages, r, v) != 0 && Owned(s, r, v)
    {
      assert Owned(s, r, v);
    }
  }

  lemma RemovedNothing(s: Ram, s': Ram, r: nat, v0: nat, v1: nat)
    requires Removed(s, s', r, v0, 0, true)
    ensures Removed(s, s', r, v1, 0, true)
  {
    hide Pte, Ppn;
    assert forall r': nat, v: nat :: !Within(r, v0, 0, r', v);
  }

  lemma AfterShrink(s: Ram, s': Ram, boot: Boot, rest: seq<Proc>, p: Proc, newsz: nat)
    requires Tree(s) && Tree(s') && Inv(s, boot, rest, p.r, p.tf) && p.r != 0
    requires User(s, p.r, p.sz) && Fixed(s, p.r, p.tf, boot)
    requires Removed(s, s', p.r, Up(newsz), Pages(newsz, p.sz), true)
    ensures var sz := if newsz < p.sz then newsz else p.sz;
            User(s', p.r, sz) && Fixed(s', p.r, p.tf, boot) && Kept(s, p, s', p.(sz := sz))
    ensures Inv(s', boot, rest, p.r, p.tf) && AllUndisturbed(s, s', rest)
  {
    hide Tree, Inv, AllUndisturbed, User, Fixed, Kept, Removed, Up, Owned;
    var sz := if newsz < p.sz then newsz else p.sz;
    UserRoot(s, p.r, p.sz);
    UpMonotone(sz, p.sz);
    if newsz >= p.sz {
      UpMonotone(p.sz, newsz);
      RemovedNothing(s, s', p.r, Up(newsz), Up(sz));
    }
    ToShrink(s, p.r, p.sz, sz);
    AfterRemoved(s, s', boot, rest, p.r, p.tf, Up(sz), Pages(sz, p.sz), true);
    Shrunk(s, s', boot, p, sz);
  }

  lemma AfterGrowth(s: Ram, s': Ram, boot: Boot, rest: seq<Proc>, p: Proc, sz: nat, perm: nat)
    requires Tree(s) && Tree(s') && Inv(s, boot, rest, p.r, p.tf) && p.r != 0
    requires User(s, p.r, p.sz) && Fixed(s, p.r, p.tf, boot) && p.sz <= sz <= p.sz + 0x8000_0000
    requires Up(p.sz + 0x8000_0000) <= FRAME && Zeroed(s, s', p.r, Up(p.sz), Pages(p.sz, sz), perm)
    ensures User(s', p.r, sz) && Fixed(s', p.r, p.tf, boot) && Kept(s, p, s', p.(sz := sz))
    ensures Inv(s', boot, rest, p.r, p.tf) && AllUndisturbed(s, s', rest)
  {
    hide Tree, Inv, AllUndisturbed, User, Fixed, Kept, Allocated, Up;
    AfterAllocated(s, s', boot, rest, p.r, p.tf, Up(p.sz), Copies(Pages(p.sz, sz), ZeroPage()),
        Copies<nat>(Pages(p.sz, sz), perm));
    Grown(s, s', boot, p, sz, perm);
  }

  lemma Grown(s: Ram, s': Ram, boot: Boot, p: Proc, sz: nat, perm: nat)
    requires Tree(s) && Tree(s') && User(s, p.r, p.sz) && Fixed(s, p.r, p.tf, boot) && p.sz <= sz <= p.sz + 0x8000_0000
    requires Up(p.sz + 0x8000_0000) <= FRAME && Zeroed(s, s', p.r, Up(p.sz), Pages(p.sz, sz), perm)
    ensures User(s', p.r, sz) && Fixed(s', p.r, p.tf, boot) && Kept(s, p, s', p.(sz := sz))
  {
    hide Tree, Pte, MakePte, Fresh, FreeTaken, PagesOf, PermsOf, Owned, Up;
    UpMonotone(sz, p.sz + 0x8000_0000);
    UpMonotone(p.sz, sz);
    GrownUser(s, s', p.r, p.sz, sz, perm);
    assert !Within(p.r, Up(p.sz), Pages(p.sz, sz), p.r, TRAMP) && !Within(p.r, Up(p.sz), Pages(p.sz, sz), p.r, FRAME);
  }

  lemma Shrunk(s: Ram, s': Ram, boot: Boot, p: Proc, sz: nat)
    requires Tree(s) && Tree(s') && User(s, p.r, p.sz) && Fixed(s, p.r, p.tf, boot) && sz <= p.sz
    requires Removed(s, s', p.r, Up(sz), Pages(sz, p.sz), true)
    ensures User(s', p.r, sz) && Fixed(s', p.r, p.tf, boot) && Kept(s, p, s', p.(sz := sz))
  {
    hide Tree, Pte, MakePte, PagesOf, PermsOf, Owned, Up, Ppn;
    UpMonotone(sz, p.sz);
    ShrunkUser(s, s', p.r, p.sz, sz);
    assert !Within(p.r, Up(sz), Pages(sz, p.sz), p.r, TRAMP) && !Within(p.r, Up(sz), Pages(sz, p.sz), p.r, FRAME);
  }

  lemma FrameStays(s: Ram, boot: Boot, rest: seq<Proc>, r: nat, tf: nat)
    requires Inv(s, boot, rest, r, tf) && tf != 0
    ensures IsKernels(s, tf)
  {
  }

  lemma Whole(s: Ram, boot: Boot, p: Proc)
    requires p.used && p.tf != 0 && IsKernels(s, p.tf) && User(s, p.r, p.sz) && Fixed(s, p.r, p.tf, boot) && p.r != 0
    ensures SlotOk(s, boot, p)
  {
  }

  /** Processes whose page tables are undisturbed keep their memory. */
  lemma KeptOthers(s: Ram, s': Ram, boot: Boot, procs: seq<Proc>, procs': seq<Proc>, i: nat)
    requires Tree(s) && Tree(s') && Inv(s, boot, procs, 0, 0) && i < |procs| == |procs'|
    requires procs' == procs[i := procs'[i]]
    requires AllUndisturbed(s, s', procs[i := Proc(true, 0, 0, 0)])
    ensures OthersKept(s, procs, s', procs', i)
  {
    hide Tree, Undisturbed, PagesOf, PermsOf, User, Fixed, HasTable, HasFrame, Separate, Up;
    var rest := procs[i := Proc(true, 0, 0, 0)];
    forall j | 0 <= j < |procs| && j != i && procs[j].r != 0
      ensures Image(s', procs[j]) == Image(s, procs[j])
    {
      assert rest[j] == procs[j] && SlotOk(s, boot, procs[j]);
      ImageStays(s, s', procs[j].r, procs[j].sz);
    }
  }

  lemma Unchanged(s: Ram, s': Ram, boot: Boot, procs: seq<Proc>, i: nat)
    requires Tree(s) && Tree(s') && Inv(s, boot, procs, 0, 0) && i < |procs| && procs[i].r != 0
    requires AllUndisturbed(s, s', procs[i := Proc(true, 0, 0, 0)]) && Undisturbed(s, s', procs[i].r)
    requires Inv(s', boot, procs[i := Proc(true, 0, 0, 0)], procs[i].r, procs[i].tf)
    ensures Inv(s', boot, procs, 0, 0) && OthersKept(s, procs, s', procs, i)
    ensures Image(s', procs[i]) == Image(s, procs[i])
  {
    hide Tree, Undisturbed, PagesOf, PermsOf, Inv, Up, OthersKept, AllUndisturbed, SlotOk;
    InvSizes(s, boot, procs, 0, 0);
    KeptOthers(s, s', boot, procs, procs, i);
    Out(s, boot, procs, i);
    SlotParts(s, boot, procs[i]);
    ImageStays(s, s', procs[i].r, procs[i].sz);
    FrameStays(s', boot, procs[i := Proc(true, 0, 0, 0)], procs[i].r, procs[i].tf);
    SlotStays(s, s', boot, procs[i]);
    In(s', boot, procs[i := Proc(true, 0, 0, 0)], i, procs[i]);
    assert procs[i := Proc(true, 0, 0, 0)][i := procs[i]] == procs;
  }

  // fork

  lemma AllKept(s: Ram, s': Ram, boot: Boot, procs: seq<Proc>)
    requires Tree(s) && Tree(s') && Inv(s, boot, procs, 0, 0) && AllUndisturbed(s, s', procs)
    ensures OthersKept(s, procs, s', procs, -1)
  {
    hide Tree, Undisturbed, PagesOf, PermsOf, User, Fixed, HasTable, HasFrame, Separate, Up;
    forall j | 0 <= j < |procs| && procs[j].r != 0
      ensures Image(s', procs[j]) == Image(s, procs[j])
    {
      assert SlotOk(s, boot, procs[j]);
      ImageStays(s, s', procs[j].r, procs[j].sz);
    }
  }

  /** The parent's memory is still there when the child q has been made. */
  lemma Parent(s: Ram, s1: Ram, boot: Boot, procs: seq<Proc>, rest: seq<Proc>, i: nat, q: Proc)
    requires Tree(s) && Tree(s1) && Inv(s, boot, procs, 0, 0) && AllUndisturbed(s, s1, procs)
    requires i < |procs| == |rest| && procs[i].r != 0
    requires Inv(s1, boot, rest, q.r, q.tf) && rest[i] == procs[i] && q.r != 0 && User(s1, q.r, 0)
    ensures var p := procs[i];
            && User(s1, p.r, p.sz) && IsRoot(s1, p.r) && p.r != q.r && p.sz <= MAXVA && Image(s1, p) == Image(s, p)
            && forall v :: 0 <= v < Up(p.sz) ==> Owned(s1, p.r, v) && Pte(s1.pages, q.r, v) == 0
  {
    hide Tree, Undisturbed, PagesOf, PermsOf, Fixed, HasFrame, Separate, Up, Owned, Pte;
    var p := procs[i];
    assert SlotOk(s, boot, p) && SlotOk(s1, boot, rest[i]);
    ImageStays(s, s1, p.r, p.sz);
    assert p.r == q.r ==> HasTable(rest, q.r);
    UserRoot(s1, p.r, p.sz);
    NoPages();
  }

  lemma Rest(s: Ram, s': Ram, rest: seq<Proc>, procs: seq<Proc>, c: nat)
    requires AllUndisturbed(s, s', rest) && c < |rest| == |procs| && procs[c].r == 0
    requires forall j :: 0 <= j < |rest| && j != c ==> procs[j] == rest[j]
    ensures AllUndisturbed(s, s', procs)
  {
    hide Undisturbed;
  }

  lemma RestTrans(s: Ram, s1: Ram, s2: Ram, procs: seq<Proc>, rest: seq<Proc>)
    requires AllUndisturbed(s, s1, procs) && AllUndisturbed(s1, s2, rest) && |rest| == |procs|
    requires forall j :: 0 <= j < |rest| && rest[j].r != 0 ==> procs[j].r == rest[j].r
    ensures AllUndisturbed(s, s2, rest)
  {
    hide Undisturbed;
    forall j | 0 <= j < |rest| && rest[j].r != 0
      ensures Undisturbed(s, s2, rest[j].r)
    {
      assert procs[j].r == rest[j].r;
      UndisturbedTrans(s, s1, s2, rest[j].r);
    }
  }

  lemma Copied(s: Ram, s': Ram, boot: Boot, rest: seq<Proc>, p: Proc, q: Proc)
    requires Tree(s) && Tree(s') && Inv(s, boot, rest, q.r, q.tf) && q.r != 0
    requires User(s, p.r, p.sz) && User(s, q.r, 0) && Fixed(s, q.r, q.tf, boot)
    requires Allocated(s, s', q.r, 0, PagesOf(s, p.r, Up(p.sz)), PermsOf(s, p.r, Up(p.sz)))
    ensures User(s', q.r, p.sz) && Fixed(s', q.r, q.tf, boot) && Image(s', q.(sz := p.sz)) == Image(s, p)
    ensures Inv(s', boot, rest, q.r, q.tf) && AllUndisturbed(s, s', rest)
  {
    hide Tree, Inv, AllUndisturbed, Owned, Pte, MakePte, Fresh, FreeTaken, Up;
    AfterAllocated(s, s', boot, rest, q.r, q.tf, 0, PagesOf(s, p.r, Up(p.sz)), PermsOf(s, p.r, Up(p.sz)));
    CopiedUser(s, s', p.r, q.r, p.sz);
    assert !Within(q.r, 0, Up(p.sz), q.r, TRAMP) && !Within(q.r, 0, Up(p.sz), q.r, FRAME);
  }

  // conservation

  /** p is a table or a user page of some process. */
  ghost predicate InTable(s: Ram, procs: seq<Proc>, p: nat) {
    exists i :: 0 <= i < |procs| && procs[i].r != 0 && Belongs(s, procs[i].r, p)
  }

  /** The page is on the free list, kept by the kernel since boot, a process's trap frame, or in a
      process's page table: exactly one of these, and of exactly one process. */
  ghost predicate Accounted(s: Ram, free: seq<nat>, boot: Boot, procs: seq<Proc>, p: nat) {
    && (p in free ==> !HasFrame(procs, p) && !InTable(s, procs, p) && p !in boot.kept)
    && (p in boot.kept ==> !HasFrame(procs, p) && !InTable(s, procs, p) && p !in free)
    && (p !in free && p !in boot.kept ==> (HasFrame(procs, p) <==> !InTable(s, procs, p)))
    && (forall i, j :: 0 <= i < j < |procs| && procs[i].tf == p ==> procs[j].tf != p)
    && (forall i, j :: 0 <= i < j < |procs| && procs[i].r != 0 && procs[j].r != 0 ==>
        !(Belongs(s, procs[i].r, p) && Belongs(s, procs[j].r, p)))
  }

  lemma EveryPageHasOneOwner(s: Ram, head: nat, free: seq<nat>, boot: Boot, procs: seq<Proc>, p: nat)
    requires Tree(s) && FreeOk(s, head, free) && Inv(s, boot, procs, 0, 0) && s.lo <= p < |s.use|
    ensures Accounted(s, free, boot, procs, p)
  {
    hide Tree, FreeOk, Belongs, Fixed, SlotOk;
    Partition(s, head, free, p);
    forall i | 0 <= i < |procs|
      ensures procs[i].r != 0 ==> IsRoot(s, procs[i].r)
      ensures procs[i].tf != 0 ==> IsKernels(s, procs[i].tf)
    {
      SlotFrame(s, boot, procs[i]);
    }
    if r: nat :| IsRoot(s, r) && Belongs(s, r, p) {
      assert r != 0;
      var i :| 0 <= i < |procs| && procs[i].r == r;
      assert InTable(s, procs, p);
    } else {
      assert p in free || IsKernels(s, p);
    }
  }
}
