/** The memory of processes (kernel/proc.c): trap frames, page tables with the trampoline and the
    trap frame at the top, and user memory that grows, shrinks, is copied by fork and is freed.
    Whatever processes do, every page of RAM is on the free list or has exactly one owner. */
module ProcMemory {
  import opened Params
  import opened Sequences
  import Sets
  import opened PageTable
  import opened Mappings
  import opened Teardown
  import opened Vm

  const TRAMPOLINE: nat := MAXVA - PGSIZE
  const TRAPFRAME: nat := TRAMPOLINE - PGSIZE
  /** Their virtual page numbers. */
  const TRAMP: nat := NVPN - 1
  const FRAME: nat := NVPN - 2
  /** The end of RAM, as a page number. */
  const PHYSTOP: nat := 0x8_8000

  /** What struct proc says about memory; 0 is the null pointer. */
  datatype Proc = Proc(used: bool, tf: nat, r: nat, sz: nat)

  const EMPTY: Proc := Proc(false, 0, 0, 0)

  /** What the kernel has set up at boot: the trampoline, in its own image, and the pages that it took
      from kalloc for good (its page table and its stacks). */
  datatype Boot = Boot(tramp: nat, kept: set<nat>)

  /** The first sz bytes of page table r are mapped to pages of its own, and nothing above. */
  ghost predicate User(s: Ram, r: nat, sz: nat) {
    && IsRoot(s, r) && Up(sz) <= FRAME
    && (forall v: nat :: v < Up(sz) ==> Owned(s, r, v))
    && (forall v: nat :: Up(sz) <= v < FRAME ==> Pte(s.pages, r, v) == 0)
  }

  predicate Fixed(s: Ram, r: nat, tf: nat, boot: Boot) {
    && Pte(s.pages, r, TRAMP) == MakePte(boot.tramp, PTE_R + PTE_X)
    && Pte(s.pages, r, FRAME) == MakePte(tf, PTE_R + PTE_W)
  }

  ghost predicate SlotOk(s: Ram, boot: Boot, p: Proc) {
    && (p.r == 0 ==> p.sz == 0) && (!p.used ==> p == EMPTY)
    && (p.tf != 0 ==> IsKernels(s, p.tf))
    && (p.r != 0 ==> p.tf != 0 && User(s, p.r, p.sz) && Fixed(s, p.r, p.tf, boot))
  }

  /** A page handed out by kalloc and not put into a page table. */
  predicate IsKernels(s: Ram, p: nat) {
    s.lo <= p < |s.use| && s.use[p].Other?
  }

  /** No two processes share a trap frame or a page table. */
  ghost predicate Separate(procs: seq<Proc>) {
    && (forall i, j :: 0 <= i < j < |procs| && procs[i].tf != 0 ==> procs[i].tf != procs[j].tf)
    && (forall i, j :: 0 <= i < j < |procs| && procs[i].r != 0 ==> procs[i].r != procs[j].r)
  }

  predicate HasFrame(procs: seq<Proc>, p: nat) {
    exists i :: 0 <= i < |procs| && procs[i].tf == p
  }

  predicate HasTable(procs: seq<Proc>, r: nat) {
    exists i :: 0 <= i < |procs| && procs[i].r == r
  }

  /** All kernel pages and page tables are those of processes, except for a page table and a kernel
      page that an operation is working on. */
  ghost predicate Inv(s: Ram, boot: Boot, procs: seq<Proc>, table: nat, frame: nat) {
    && Sizes(s) && |procs| == NPROC && 0 < boot.tramp < s.lo && |s.use| <= PHYSTOP && NoCut(s)
    && (forall i :: 0 <= i < NPROC ==> SlotOk(s, boot, procs[i]))
    && Separate(procs)
    && (forall p: nat :: IsRoot(s, p) ==> p == table || HasTable(procs, p))
    && (forall p: nat :: IsKernels(s, p) ==> p == frame || HasFrame(procs, p) || p in boot.kept)
    && (forall p: nat :: p in boot.kept ==> IsKernels(s, p) && p != frame && !HasFrame(procs, p))
    && (table != 0 ==> !HasTable(procs, table))
    && (frame != 0 ==> IsKernels(s, frame) && !HasFrame(procs, frame))
  }

  // what an operation on one page table leaves alone

  /** Page table r translates as before, and its pages are what they were. */
  ghost predicate Undisturbed(s: Ram, s': Ram, r: nat) {
    && s'.lo == s.lo && |s'.use| == |s.use| == |s.pages| == |s'.pages| && IsRoot(s', r)
    && (forall v: nat :: v < NVPN ==> Pte(s'.pages, r, v) == Pte(s.pages, r, v))
    && (forall p: nat :: p < |s.use| && Belongs(s, r, p) ==>
          s'.use[p] == s.use[p] && (s.use[p].Leaf? ==> s'.pages[p] == s.pages[p]))
  }

  /** Tables and pages on the way to v belong to the page table. */
  lemma OnTheWay(s: Ram, r: nat, v: nat)
    requires Tree(s) && IsRoot(s, r) && v < NVPN && Table0(s.pages, r, v) != 0
    ensures Belongs(s, r, Table1(s.pages, r, v)) && Belongs(s, r, Table0(s.pages, r, v))
    ensures Owned(s, r, v) ==> Belongs(s, r, Ppn(Pte(s.pages, r, v)))
  {
    hide Px, Entries, Parents, Leaves, Pte;
    Path(s, r, v);
    assert Table1(s.pages, r, v) != 0;
  }

  lemma TablesStay(s: Ram, s': Ram, r: nat, v: nat)
    requires Tree(s) && Tree(s') && IsRoot(s, r) && v < NVPN && Table0(s.pages, r, v) != 0 && Undisturbed(s, s', r)
    ensures Table0(s'.pages, r, v) == Table0(s.pages, r, v)
  {
    hide Px, Entries, Leaves, V, Ppn, Pte, Belongs;
    OnTheWay(s, r, v);
    Path(s, r, v);
    var t1, t0 := Table1(s.pages, r, v), Table0(s.pages, r, v);
    assert t1 != 0;
    assert s'.use[t1] == s.use[t1] && ParentOk(s', t1);
    assert s'.use[t0] == s.use[t0] && ParentOk(s', t0);
    NotLow(s', r);
  }

  lemma OwnedStays(s: Ram, s': Ram, r: nat, v: nat)
    requires Tree(s) && Tree(s') && IsRoot(s, r) && v < NVPN && Owned(s, r, v) && Undisturbed(s, s', r)
    ensures Owned(s', r, v) && PageAt(s', r, v) == PageAt(s, r, v)
  {
    hide Px, Tree, Ppn, Pte, Belongs, Table0;
    OnTheWay(s, r, v);
    TablesStay(s, s', r, v);
  }

  lemma UserStays(s: Ram, s': Ram, r: nat, sz: nat)
    requires Tree(s) && Tree(s') && User(s, r, sz) && Undisturbed(s, s', r)
    ensures User(s', r, sz)
  {
    hide Tree, Owned, Pte, Belongs, Up;
    forall v: nat | v < Up(sz)
      ensures Owned(s', r, v)
    {
      OwnedStays(s, s', r, v);
    }
  }

  /** The user memory of a process: contents and permissions, page by page. */
  ghost function Image(s: Ram, p: Proc): (seq<Page>, seq<nat>) {
    (PagesOf(s, p.r, Up(p.sz)), PermsOf(s, p.r, Up(p.sz)))
  }

  lemma {:induction false} ImageSame(s: Ram, r: nat, s': Ram, r': nat, n: nat)
    requires forall v: nat :: v < n ==>
               PageAt(s', r', v) == PageAt(s, r, v) && Flags(Pte(s'.pages, r', v)) == Flags(Pte(s.pages, r, v))
    ensures PagesOf(s', r', n) == PagesOf(s, r, n) && PermsOf(s', r', n) == PermsOf(s, r, n)
  {
    hide PageAt, Pte, Flags;
    if n > 0 {
      ImageSame(s, r, s', r', n - 1);
    }
  }

  lemma ImageStays(s: Ram, s': Ram, r: nat, sz: nat)
    requires Tree(s) && Tree(s') && User(s, r, sz) && Undisturbed(s, s', r)
    ensures PagesOf(s', r, Up(sz)) == PagesOf(s, r, Up(sz)) && PermsOf(s', r, Up(sz)) == PermsOf(s, r, Up(sz))
  {
    hide Tree, Owned, Undisturbed, PageAt, Pte, Flags, Up;
    forall v: nat | v < Up(sz)
      ensures PageAt(s', r, v) == PageAt(s, r, v) && Flags(Pte(s'.pages, r, v)) == Flags(Pte(s.pages, r, v))
    {
      OwnedStays(s, s', r, v);
      PteStays(s, s', r, v);
    }
    ImageSame(s, r, s', r, Up(sz));
  }

  lemma PteStays(s: Ram, s': Ram, r: nat, v: nat)
    requires Undisturbed(s, s', r) && v < NVPN
    ensures Pte(s'.pages, r, v) == Pte(s.pages, r, v)
  {
  }

  // every operation leaves the other page tables alone

  /** kalloc and kfree. */
  lemma RetagApart(s: Ram, s': Ram, p: nat, u: Use, r: nat)
    requires IsRoot(s, r) && s'.lo == s.lo && SameMaps(s, s') && p < |s.use| == |s.pages| == |s'.pages|
    requires (s.use[p].Free? || s.use[p].Other?) && s'.use == s.use[p := u]
    requires forall q :: 0 <= q < |s.pages| && q != p ==> s'.pages[q] == s.pages[q]
    ensures Undisturbed(s, s', r)
  {
    hide Pte;
  }

  /** uvmcreate. */
  lemma CreateApart(s: Ram, s': Ram, p: nat, r: nat)
    requires IsRoot(s, r) && r != p && s'.lo == s.lo && OtherMaps(s, s', p) && p < |s.use| == |s.pages| == |s'.pages|
    requires s.use[p].Free? && s'.use == s.use[p := Root]
    requires forall q :: 0 <= q < |s.pages| && q != p ==> s'.pages[q] == s.pages[q]
    ensures Undisturbed(s, s', r)
  {
    hide Pte;
  }

  lemma GrowsApart(s: Ram, s': Ram, r: nat)
    requires Grows(s, s') && IsRoot(s, r)
    ensures Undisturbed(s, s', r)
  {
    hide Pte;
  }

  lemma InsertedApart(s: Ram, s': Ram, t: nat, v0: nat, k: nat, p0: nat, perm: nat, r: nat)
    requires Inserted(s, s', t, v0, k, p0, perm) && IsRoot(s, r) && r != t
    ensures Undisturbed(s, s', r)
  {
    hide Pte, MakePte;
  }

  lemma AllocatedApart(s: Ram, s': Ram, t: nat, v0: nat, contents: seq<Page>, perms: seq<nat>, r: nat)
    requires Allocated(s, s', t, v0, contents, perms) && IsRoot(s, r) && r != t
    ensures Undisturbed(s, s', r)
  {
    hide Pte, Fresh, FreeTaken;
  }

  /** uvmunmap, with or without freeing. */
  lemma RemovedApart(s: Ram, s': Ram, t: nat, v0: nat, k: nat, freed: bool, r: nat)
    requires Tree(s) && Removed(s, s', t, v0, k, freed) && IsRoot(s, r) && IsRoot(s, t) && r != t && v0 + k <= NVPN
    requires freed ==> forall v: nat :: v0 <= v < v0 + k ==> Owned(s, t, v)
    ensures Undisturbed(s, s', r)
  {
    hide Pte, Tree, Ppn, Table0, Px;
    forall p: nat | p < |s.use| && Belongs(s, r, p)
      ensures s'.use[p] == s.use[p] && (s.use[p].Leaf? ==> s'.pages[p] == s.pages[p])
    {
      if s'.use[p] != s.use[p] {
        var v :| v0 <= v < v0 + k && Ppn(Pte(s.pages, t, v)) == p;
        assert Owned(s, t, v);
        OnTheWay(s, t, v);
        OnlyOwner(s, p, r, t);
      }
    }
  }

  /** uvmfree. */
  lemma ReturnedApart(s: Ram, s': Ram, t: nat, r: nat)
    requires Returned(s, s', t) && OtherMaps(s, s', t) && DataKept(s, s') && IsRoot(s, r) && IsRoot(s, t) && r != t
    ensures Undisturbed(s, s', r)
  {
    hide Pte, Belongs;
    forall p: nat | p < |s.use| && Belongs(s, r, p)
      ensures s'.use[p] == s.use[p]
    {
      if Belongs(s, t, p) {
        OnlyOwner(s, p, r, t);
      }
    }
  }

  // the invariant

  /** Kernel pages and page tables are the same pages. */
  ghost predicate SameOwners(s: Ram, s': Ram) {
    && s'.lo == s.lo && |s'.use| == |s.use| && NoCut(s')
    && forall p :: 0 <= p < |s.use| ==> s'.use[p].Other? == s.use[p].Other? && s'.use[p].Root? == s.use[p].Root?
  }

  ghost predicate AllUndisturbed(s: Ram, s': Ram, procs: seq<Proc>) {
    forall i :: 0 <= i < |procs| && procs[i].r != 0 ==> Undisturbed(s, s', procs[i].r)
  }

  lemma SlotStays(s: Ram, s': Ram, boot: Boot, p: Proc)
    requires Tree(s) && Tree(s') && SlotOk(s, boot, p)
    requires p.tf != 0 ==> IsKernels(s', p.tf)
    requires p.r != 0 ==> Undisturbed(s, s', p.r)
    ensures SlotOk(s', boot, p)
  {
    hide Tree, User, Undisturbed, MakePte, Pte;
    if p.r != 0 {
      UserStays(s, s', p.r, p.sz);
      PteStays(s, s', p.r, TRAMP);
      PteStays(s, s', p.r, FRAME);
    }
  }

  lemma InvStays(s: Ram, s': Ram, boot: Boot, procs: seq<Proc>, table: nat, frame: nat)
    requires Tree(s) && Tree(s') && Inv(s, boot, procs, table, frame)
    requires SameOwners(s, s') && AllUndisturbed(s, s', procs)
    ensures Inv(s', boot, procs, table, frame)
  {
    hide Tree, SlotOk, Undisturbed, HasTable, HasFrame, Separate;
    SizesOf(s');
    forall i | 0 <= i < NPROC
      ensures SlotOk(s', boot, procs[i])
    {
      SlotFrame(s, boot, procs[i]);
      SlotStays(s, s', boot, procs[i]);
    }
  }

  lemma SlotFrame(s: Ram, boot: Boot, p: Proc)
    requires SlotOk(s, boot, p)
    ensures p.tf != 0 ==> IsKernels(s, p.tf)
    ensures p.r != 0 ==> IsRoot(s, p.r) && p.tf != 0
  {
  }

  /** Take slot i out to work on it. */
  lemma Out(s: Ram, boot: Boot, procs: seq<Proc>, i: nat)
    requires Inv(s, boot, procs, 0, 0) && i < NPROC
    ensures SlotOk(s, boot, procs[i])
    ensures Inv(s, boot, procs[i := Proc(true, 0, 0, 0)], procs[i].r, procs[i].tf)
  {
    hide User, Fixed;
    var rest := procs[i := Proc(true, 0, 0, 0)];
    forall p: nat | IsRoot(s, p)
      ensures p == procs[i].r || HasTable(rest, p)
    {
      var j :| 0 <= j < |procs| && procs[j].r == p;
      assert j != i ==> rest[j] == procs[j];
    }
    forall p: nat | IsKernels(s, p)
      ensures p == procs[i].tf || HasFrame(rest, p) || p in boot.kept
    {
      if p !in boot.kept {
        var j :| 0 <= j < |procs| && procs[j].tf == p;
        assert j != i ==> rest[j] == procs[j];
      }
    }
  }

  /** Put a record back into slot i, which is empty. */
  lemma In(s: Ram, boot: Boot, procs: seq<Proc>, i: nat, p: Proc)
    requires Inv(s, boot, procs, p.r, p.tf) && i < NPROC && procs[i].r == 0 && procs[i].tf == 0 && SlotOk(s, boot, p)
    ensures Inv(s, boot, procs[i := p], 0, 0)
  {
    hide User, Fixed;
    var all := procs[i := p];
    forall q: nat | IsRoot(s, q)
      ensures HasTable(all, q)
    {
      if q != p.r {
        var j :| 0 <= j < |procs| && procs[j].r == q;
        assert all[j].r == q;
      } else {
        assert all[i].r == q;
      }
    }
    forall q: nat | IsKernels(s, q)
      ensures HasFrame(all, q) || q in boot.kept
    {
      if q == p.tf {
        assert all[i].tf == q;
      } else if q !in boot.kept {
        var j :| 0 <= j < |procs| && procs[j].tf == q;
        assert all[j].tf == q;
      }
    }
  }

  lemma UndisturbedTrans(s: Ram, s1: Ram, s2: Ram, r: nat)
    requires Undisturbed(s, s1, r) && Undisturbed(s1, s2, r)
    ensures Undisturbed(s, s2, r)
  {
    hide Pte;
    forall p: nat | p < |s.use| && Belongs(s, r, p)
      ensures Belongs(s1, r, p)
    {
      BelongsStays(s, s1, r, p);
    }
  }

  lemma BelongsStays(s: Ram, s': Ram, r: nat, p: nat)
    requires Undisturbed(s, s', r) && p < |s.use| && Belongs(s, r, p)
    ensures Belongs(s', r, p)
  {
    hide Pte;
    if p != r {
      var t := if s.use[p].Leaf? then s.use[p].table else p;
      assert Teardown.Below(s, r, t);
      if t != r {
        assert Belongs(s, r, t) && s'.use[t] == s.use[t];
        var u := s.use[t].parent;
        if u != r {
          assert Belongs(s, r, u) && s'.use[u] == s.use[u];
        }
      }
    }
  }

  lemma AllTrans(s: Ram, s1: Ram, s2: Ram, procs: seq<Proc>)
    requires AllUndisturbed(s, s1, procs) && AllUndisturbed(s1, s2, procs)
    ensures AllUndisturbed(s, s2, procs)
  {
    hide Undisturbed;
    forall i | 0 <= i < |procs| && procs[i].r != 0
      ensures Undisturbed(s, s2, procs[i].r)
    {
      UndisturbedTrans(s, s1, s2, procs[i].r);
    }
  }

  lemma RootOf(s: Ram, boot: Boot, procs: seq<Proc>, table: nat, frame: nat, i: nat)
    requires Inv(s, boot, procs, table, frame) && i < |procs| && procs[i].r != 0
    ensures IsRoot(s, procs[i].r) && (table != 0 ==> procs[i].r != table)
  {
    hide Separate, Fixed;
    assert SlotOk(s, boot, procs[i]);
    assert table == procs[i].r ==> HasTable(procs, table);
  }

  // the invariant through the operations

  lemma AfterTake(s: Ram, s': Ram, boot: Boot, procs: seq<Proc>, p: nat)
    requires Tree(s) && Tree(s') && Inv(s, boot, procs, 0, 0) && s.lo <= p < |s.use| && s.use[p].Free?
    requires s'.lo == s.lo && SameMaps(s, s') && |s'.pages| == |s.pages| && s'.use == s.use[p := Other]
    requires forall q :: 0 <= q < |s.pages| && q != p ==> s'.pages[q] == s.pages[q]
    ensures Inv(s', boot, procs, 0, p) && AllUndisturbed(s, s', procs)
  {
    hide Tree, Undisturbed, User, Fixed, SameMaps;
    SizesOf(s);
    SizesOf(s');
    forall i | 0 <= i < NPROC
      ensures SlotOk(s', boot, procs[i])
      ensures procs[i].r != 0 ==> Undisturbed(s, s', procs[i].r)
    {
      SlotFrame(s, boot, procs[i]);
      if procs[i].r != 0 {
        RetagApart(s, s', p, Other, procs[i].r);
      }
      SlotStays(s, s', boot, procs[i]);
    }
    forall q: nat | IsKernels(s', q)
      ensures q == p || HasFrame(procs, q) || q in boot.kept
    {
      assert q != p ==> IsKernels(s, q);
    }
    forall q: nat | IsRoot(s', q)
      ensures HasTable(procs, q)
    {
      assert IsRoot(s, q);
    }
    forall i | 0 <= i < NPROC
      ensures procs[i].tf != p
    {
      assert SlotOk(s, boot, procs[i]);
    }
  }

  lemma AfterGive(s: Ram, s': Ram, boot: Boot, procs: seq<Proc>, table: nat, p: nat)
    requires Tree(s) && Tree(s') && Inv(s, boot, procs, table, p) && p != 0
    requires s'.lo == s.lo && SameMaps(s, s') && |s'.pages| == |s.pages| && s'.use == s.use[p := Free]
    requires forall q :: 0 <= q < |s.pages| && q != p ==> s'.pages[q] == s.pages[q]
    ensures Inv(s', boot, procs, table, 0) && AllUndisturbed(s, s', procs)
    ensures table != 0 && IsRoot(s, table) ==> Undisturbed(s, s', table)
  {
    hide Tree, Undisturbed, User, Fixed, SameMaps;
    SizesOf(s);
    SizesOf(s');
    if table != 0 && IsRoot(s, table) {
      RetagApart(s, s', p, Free, table);
    }
    forall i | 0 <= i < NPROC
      ensures SlotOk(s', boot, procs[i])
      ensures procs[i].r != 0 ==> Undisturbed(s, s', procs[i].r)
    {
      SlotFrame(s, boot, procs[i]);
      assert procs[i].tf == p ==> HasFrame(procs, p);
      if procs[i].r != 0 {
        RetagApart(s, s', p, Free, procs[i].r);
      }
      SlotStays(s, s', boot, procs[i]);
    }
    forall q: nat | IsKernels(s', q)
      ensures HasFrame(procs, q) || q in boot.kept
    {
      assert IsKernels(s, q);
    }
    forall q: nat | IsRoot(s', q)
      ensures q == table || HasTable(procs, q)
    {
      assert IsRoot(s, q);
    }
  }

  lemma AfterCreate(s: Ram, s': Ram, boot: Boot, procs: seq<Proc>, frame: nat, r: nat)
    requires Tree(s) && Tree(s') && Inv(s, boot, procs, 0, frame) && 0 < r < |s.use| && s.use[r].Free?
    requires s'.lo == s.lo && OtherMaps(s, s', r) && |s'.pages| == |s.pages| && s'.use == s.use[r := Root]
    requires forall q :: 0 <= q < |s.pages| && q != r ==> s'.pages[q] == s.pages[q]
    ensures Inv(s', boot, procs, r, frame) && AllUndisturbed(s, s', procs)
  {
    hide Tree, Undisturbed, User, Fixed, OtherMaps;
    SizesOf(s);
    SizesOf(s');
    forall i | 0 <= i < NPROC
      ensures SlotOk(s', boot, procs[i]) && procs[i].r != r
      ensures procs[i].r != 0 ==> Undisturbed(s, s', procs[i].r)
    {
      SlotFrame(s, boot, procs[i]);
      if procs[i].r != 0 {
        CreateApart(s, s', r, procs[i].r);
      }
      SlotStays(s, s', boot, procs[i]);
    }
    forall q: nat | IsKernels(s', q)
      ensures q == frame || HasFrame(procs, q) || q in boot.kept
    {
      assert IsKernels(s, q);
    }
    forall q: nat | IsRoot(s', q)
      ensures q == r || HasTable(procs, q)
    {
      assert q != r ==> IsRoot(s, q);
    }
  }

  lemma AfterInserted(s: Ram, s': Ram, boot: Boot, procs: seq<Proc>, r: nat, frame: nat, v0: nat, k: nat, p0: nat,
                      perm: nat)
    requires Tree(s) && Tree(s') && Inv(s, boot, procs, r, frame) && r != 0 && Inserted(s, s', r, v0, k, p0, perm)
    ensures Inv(s', boot, procs, r, frame) && AllUndisturbed(s, s', procs)
  {
    hide Tree, Undisturbed, Inv, Inserted;
    forall i | 0 <= i < |procs| && procs[i].r != 0
      ensures Undisturbed(s, s', procs[i].r)
    {
      RootOf(s, boot, procs, r, frame, i);
      InsertedApart(s, s', r, v0, k, p0, perm, procs[i].r);
    }
    InsertedOwners(s, s', boot, procs, r, frame, v0, k, p0, perm);
    InvStays(s, s', boot, procs, r, frame);
  }

  lemma InsertedOwners(s: Ram, s': Ram, boot: Boot, procs: seq<Proc>, r: nat, frame: nat, v0: nat, k: nat, p0: nat,
                       perm: nat)
    requires Inv(s, boot, procs, r, frame) && Inserted(s, s', r, v0, k, p0, perm)
    ensures SameOwners(s, s')
  {
    hide Pte, MakePte, SlotOk, Separate, HasTable, HasFrame;
  }

  lemma AfterGrows(s: Ram, s': Ram, boot: Boot, procs: seq<Proc>, r: nat, frame: nat)
    requires Tree(s) && Tree(s') && Inv(s, boot, procs, r, frame) && r != 0 && Grows(s, s')
    ensures Inv(s', boot, procs, r, frame) && AllUndisturbed(s, s', procs)
  {
    hide Tree, Undisturbed, Inv, Grows;
    forall i | 0 <= i < |procs| && procs[i].r != 0
      ensures Undisturbed(s, s', procs[i].r)
    {
      RootOf(s, boot, procs, r, frame, i);
      GrowsApart(s, s', procs[i].r);
    }
    GrowsOwners(s, s', boot, procs, r, frame);
    InvStays(s, s', boot, procs, r, frame);
  }

  lemma GrowsOwners(s: Ram, s': Ram, boot: Boot, procs: seq<Proc>, r: nat, frame: nat)
    requires Inv(s, boot, procs, r, frame) && Grows(s, s')
    ensures SameOwners(s, s')
  {
    hide Pte, SlotOk, Separate, HasTable, HasFrame;
  }

  lemma AfterAllocated(s: Ram, s': Ram, boot: Boot, procs: seq<Proc>, r: nat, frame: nat, v0: nat,
                       contents: seq<Page>, perms: seq<nat>)
    requires Tree(s) && Tree(s') && Inv(s, boot, procs, r, frame) && r != 0 && Allocated(s, s', r, v0, contents, perms)
    ensures Inv(s', boot, procs, r, frame) && AllUndisturbed(s, s', procs)
  {
    hide Tree, Undisturbed, Inv, Allocated;
    forall i | 0 <= i < |procs| && procs[i].r != 0
      ensures Undisturbed(s, s', procs[i].r)
    {
      RootOf(s, boot, procs, r, frame, i);
      AllocatedApart(s, s', r, v0, contents, perms, procs[i].r);
    }
    AllocatedOwners(s, s', boot, procs, r, frame, v0, contents, perms);
    InvStays(s, s', boot, procs, r, frame);
  }

  lemma AllocatedOwners(s: Ram, s': Ram, boot: Boot, procs: seq<Proc>, r: nat, frame: nat, v0: nat,
                        contents: seq<Page>, perms: seq<nat>)
    requires Inv(s, boot, procs, r, frame) && Allocated(s, s', r, v0, contents, perms)
    ensures SameOwners(s, s')
  {
    hide Pte, Fresh, SlotOk, Separate, HasTable, HasFrame;
  }

  lemma AfterRemoved(s: Ram, s': Ram, boot: Boot, procs: seq<Proc>, r: nat, frame: nat, v0: nat, k: nat, freed: bool)
    requires Tree(s) && Tree(s') && Inv(s, boot, procs, r, frame) && r != 0 && IsRoot(s, r) && v0 + k <= NVPN
    requires Removed(s, s', r, v0, k, freed) && (freed ==> forall v: nat :: v0 <= v < v0 + k ==> Owned(s, r, v))
    ensures Inv(s', boot, procs, r, frame) && AllUndisturbed(s, s', procs)
  {
    hide Tree, Undisturbed, Inv, Removed, Owned;
    forall i | 0 <= i < |procs| && procs[i].r != 0
      ensures Undisturbed(s, s', procs[i].r)
    {
      RootOf(s, boot, procs, r, frame, i);
      RemovedApart(s, s', r, v0, k, freed, procs[i].r);
    }
    RemovedOwners(s, s', boot, procs, r, frame, v0, k, freed);
    InvStays(s, s', boot, procs, r, frame);
  }

  lemma RemovedOwners(s: Ram, s': Ram, boot: Boot, procs: seq<Proc>, r: nat, frame: nat, v0: nat, k: nat, freed: bool)
    requires Inv(s, boot, procs, r, frame) && Removed(s, s', r, v0, k, freed)
    ensures SameOwners(s, s')
  {
    hide Pte, Ppn, SlotOk, Separate, HasTable, HasFrame, SameElsewhere;
  }

  lemma AfterReturned(s: Ram, s': Ram, boot: Boot, procs: seq<Proc>, r: nat, frame: nat)
    requires Tree(s) && Tree(s') && Inv(s, boot, procs, r, frame) && r != 0 && IsRoot(s, r)
    requires Returned(s, s', r) && OtherMaps(s, s', r) && DataKept(s, s')
    ensures Inv(s', boot, procs, 0, frame) && AllUndisturbed(s, s', procs)
  {
    hide Tree, Undisturbed, User, Fixed, OtherMaps, DataKept, Belongs, Separate;
    SizesOf(s');
    assert Belongs(s, r, r) by { BelongsSelf(s, r); }
    forall q: nat | q < |s.use|
      ensures Belongs(s, r, q) && q != r ==> s.use[q].Inner? || s.use[q].Leaf?
    {
      BelongsKind(s, r, q);
    }
    forall i | 0 <= i < NPROC
      ensures SlotOk(s', boot, procs[i])
      ensures procs[i].r != 0 ==> Undisturbed(s, s', procs[i].r)
    {
      SlotFrame(s, boot, procs[i]);
      if procs[i].r != 0 {
        RootOf(s, boot, procs, r, frame, i);
        ReturnedApart(s, s', r, procs[i].r);
      }
      SlotStays(s, s', boot, procs[i]);
    }
    forall q: nat | IsRoot(s', q)
      ensures HasTable(procs, q)
    {
      assert IsRoot(s, q);
    }
    forall q: nat | IsKernels(s', q)
      ensures q == frame || HasFrame(procs, q) || q in boot.kept
    {
      assert IsKernels(s, q);
    }
  }

  lemma BelongsSelf(s: Ram, r: nat)
    ensures Belongs(s, r, r)
  {
  }

  lemma BelongsKind(s: Ram, r: nat, q: nat)
    requires q < |s.use|
    ensures Belongs(s, r, q) && q != r ==> s.use[q].Inner? || s.use[q].Leaf?
  {
  }

  // user memory

  /** What maps a page that is no data page is not freed with it. */
  lemma FixedNotOwned(s: Ram, r: nat, v: nat)
    requires Tree(s) && IsRoot(s, r) && v < NVPN && Pte(s.pages, r, v) != 0
    requires var d := Ppn(Pte(s.pages, r, v)); d < |s.use| ==> !s.use[d].Leaf?
    ensures NotOwned(s, r, v)
  {
    hide Entries, Parents, Px, Table0, V, Ppn;
    PteAt(s, r, v);
    forall d: nat | d < |s.use|
      ensures s.use[d] != Leaf(Table0(s.pages, r, v), Px(0, v))
    {
      assert s.use[d].Leaf? ==> LeafOk(s, d);
    }
  }

  /** A page table that maps nothing has no user memory. */
  lemma NoUser(s: Ram, r: nat)
    requires IsRoot(s, r) && forall v: nat :: v < FRAME ==> Pte(s.pages, r, v) == 0
    ensures User(s, r, 0)
  {
  }

  /** The frames of the first n pages. */
  ghost function Frames(s: Ram, r: nat, n: nat): (f: seq<nat>)
    ensures |f| == n && forall v :: 0 <= v < n ==> f[v] == Ppn(Pte(s.pages, r, v))
  {
    if n == 0 then [] else Frames(s, r, n - 1) + [Ppn(Pte(s.pages, r, n - 1))]
  }

  /** No process has more user memory than there is RAM. */
  lemma UserFits(s: Ram, r: nat, sz: nat)
    requires Tree(s) && User(s, r, sz)
    ensures Up(sz) <= |s.use|
  {
    hide Tree, Pte, Ppn, Table0, Px, Up;
    var f := Frames(s, r, Up(sz));
    forall v: nat, w: nat | v < w < Up(sz)
      ensures f[v] != f[w]
    {
      OwnedApart(s, r, v, w);
    }
    forall v: nat | v < |f|
      ensures f[v] < |s.use|
    {
      assert Owned(s, r, v);
    }
    Sets.ElementsSize(f);
    assert Sets.Elements(f) <= Sets.Below(|s.use|);
    Sets.SubsetSize(Sets.Elements(f), Sets.Below(|s.use|));
  }

  /** Growing keeps the user memory that was there. */
  lemma GrownUser(s: Ram, s': Ram, r: nat, sz: nat, newsz: nat, perm: nat)
    requires Tree(s) && Tree(s') && User(s, r, sz) && sz <= newsz && Up(newsz) <= FRAME
    requires Zeroed(s, s', r, Up(sz), Pages(sz, newsz), perm)
    ensures User(s', r, newsz)
    ensures PagesOf(s', r, Up(sz)) == PagesOf(s, r, Up(sz)) && PermsOf(s', r, Up(sz)) == PermsOf(s, r, Up(sz))
  {
    hide Tree, Pte, Ppn, Table0, Px, Up, Fresh, Flags;
    UpMonotone(sz, newsz);
    FreshOwned(s, s', r, Up(sz), Copies(Pages(sz, newsz), ZeroPage()), Copies<nat>(Pages(sz, newsz), perm));
    forall v: nat | v < Up(sz)
      ensures Owned(s', r, v) && PageAt(s', r, v) == PageAt(s, r, v) && Pte(s'.pages, r, v) == Pte(s.pages, r, v)
    {
      assert Owned(s, r, v) && !Within(r, Up(sz), Pages(sz, newsz), r, v);
      TablesPersist(s, s', r, v);
    }
    ImageSame(s, r, s', r, Up(sz));
    forall v: nat | Up(newsz) <= v < FRAME
      ensures Pte(s'.pages, r, v) == 0
    {
      assert !Within(r, Up(sz), Pages(sz, newsz), r, v);
    }
  }

  /** Shrinking keeps the user memory that is left. */
  lemma ShrunkUser(s: Ram, s': Ram, r: nat, sz: nat, newsz: nat)
    requires Tree(s) && Tree(s') && User(s, r, sz) && newsz <= sz
    requires Removed(s, s', r, Up(newsz), Pages(newsz, sz), true)
    ensures User(s', r, newsz)
    ensures PagesOf(s', r, Up(newsz)) == PagesOf(s, r, Up(newsz))
    ensures PermsOf(s', r, Up(newsz)) == PermsOf(s, r, Up(newsz))
  {
    hide Tree, Pte, Ppn, Table0, Px, Up, Flags;
    UpMonotone(newsz, sz);
    forall v: nat | v < Up(newsz)
      ensures Owned(s', r, v) && PageAt(s', r, v) == PageAt(s, r, v) && Pte(s'.pages, r, v) == Pte(s.pages, r, v)
    {
      assert Owned(s, r, v) && !Within(r, Up(newsz), Pages(newsz, sz), r, v);
      TablesPersist(s, s', r, v);
      forall w: nat | Up(newsz) <= w < Up(sz)
        ensures Ppn(Pte(s.pages, r, w)) != Ppn(Pte(s.pages, r, v))
      {
        OwnedApart(s, r, v, w);
      }
    }
    ImageSame(s, r, s', r, Up(newsz));
    forall v: nat | Up(newsz) <= v < FRAME
      ensures Pte(s'.pages, r, v) == 0
    {
      assert Within(r, Up(newsz), Pages(newsz, sz), r, v) <==> v < Up(sz);
    }
  }

  /** The copy has the contents and permissions of the original. */
  lemma CopiedUser(s: Ram, s': Ram, r: nat, r2: nat, sz: nat)
    requires Tree(s) && Tree(s') && User(s, r, sz) && User(s, r2, 0)
    requires Allocated(s, s', r2, 0, PagesOf(s, r, Up(sz)), PermsOf(s, r, Up(sz)))
    ensures User(s', r2, sz)
    ensures PagesOf(s', r2, Up(sz)) == PagesOf(s, r, Up(sz)) && PermsOf(s', r2, Up(sz)) == PermsOf(s, r, Up(sz))
  {
    hide Tree, Pte, Ppn, Table0, Px, Fresh, Flags, MakePte, Up;
    var n := Up(sz);
    FreshOwned(s, s', r2, 0, PagesOf(s, r, n), PermsOf(s, r, n));
    forall v: nat | v < n
      ensures PageAt(s', r2, v) == PageAt(s, r, v) && Flags(Pte(s'.pages, r2, v)) == Flags(Pte(s.pages, r, v))
    {
      assert Fresh(s, s', r2, 0 + v, PagesOf(s, r, n)[v], PermsOf(s, r, n)[v]);
      ImageAt(s, r, n, v);
      CopiedPage(s, s', r, r2, v);
    }
    ImageSame(s, r, s', r2, n);
    forall v: nat | n <= v < FRAME
      ensures Pte(s'.pages, r2, v) == 0
    {
      assert !Within(r2, 0, n, r2, v);
      NoPages();
    }
  }

  lemma NoPages()
    ensures Up(0) == 0
  {
  }

  lemma {:induction false} ImageAt(s: Ram, r: nat, n: nat, v: nat)
    requires v < n
    ensures PagesOf(s, r, n)[v] == PageAt(s, r, v) && PermsOf(s, r, n)[v] == Flags(Pte(s.pages, r, v))
  {
    hide PageAt, Pte, Flags;
    if v < n - 1 {
      ImageAt(s, r, n - 1, v);
    }
  }

  lemma CopiedPage(s: Ram, s': Ram, r: nat, r2: nat, v: nat)
    requires Tree(s) && IsRoot(s, r) && v < NVPN && Owned(s, r, v)
    requires Fresh(s, s', r2, v, PageAt(s, r, v), Flags(Pte(s.pages, r, v)))
    ensures PageAt(s', r2, v) == PageAt(s, r, v) && Flags(Pte(s'.pages, r2, v)) == Flags(Pte(s.pages, r, v))
  {
    hide Parents, Leaves, Pte, Ppn, Table0, Px, Flags, MakePte, V;
    PteAt(s, r, v);
    assert EntryOk(s, Table0(s.pages, r, v), Px(0, v));
    OddFlags(Pte(s.pages, r, v));
    PteParts(Ppn(Pte(s'.pages, r2, v)), Flags(Pte(s.pages, r, v)));
  }

  lemma OddFlags(x: nat)
    requires V(x)
    ensures Flags(x) % 2 == 1
  {
    Parity(x / 1024, x % 1024);
  }
}
