/** The page allocator (kernel/kalloc.c) and the page-table operations (kernel/vm.c) over
    physical memory. `use` records what each page is for; `free` is the free list. */
module Vm {
  import opened Sequences
  import opened Sets
  import opened PageTable
  import opened Mappings
  import opened Teardown

  /** The page after the k-th on the free list; 0 ends it. */
  function Follow(free: seq<nat>, k: nat): nat {
    if k < |free| then free[k] else 0
  }

  /** The list holds exactly the free pages, each once. */
  ghost predicate FreeSet(use: seq<Use>, free: seq<nat>) {
    && Distinct(free)
    && (forall p :: 0 <= p < |use| && use[p].Free? ==> p in free)
    && (forall k :: 0 <= k < |free| ==> free[k] < |use| && use[free[k]].Free?)
  }

  /** The list is threaded through the first words of its pages. */
  ghost predicate FreeLinks(pages: seq<Page>, head: nat, free: seq<nat>) {
    && head == Follow(free, 0)
    && (forall k :: 0 <= k < |free| ==> free[k] < |pages| && pages[free[k]][0] == Follow(free, k + 1))
  }

  ghost predicate FreeOk(s: Ram, head: nat, free: seq<nat>) {
    |s.use| == |s.pages| && FreeSet(s.use, free) && FreeLinks(s.pages, head, free)
  }

  /** Pages that are not free do not matter for the free list. */
  lemma FreeFrame(s: Ram, s': Ram, head: nat, free: seq<nat>)
    requires FreeOk(s, head, free) && |s'.use| == |s'.pages| == |s.use|
    requires forall p :: 0 <= p < |s.use| ==> s'.use[p].Free? == s.use[p].Free? && (s.use[p].Free? ==>
               s'.pages[p] == s.pages[p])
    ensures FreeOk(s', head, free)
  {
  }

  /** memset with byte b: each word has all its bytes b. */
  function Junk(b: nat): Page {
    Copies<nat>(ENTRIES, b * 0x0101_0101_0101_0101)
  }

  class Memory {
    const lo: nat
    var pages: seq<Page>
    var freelist: nat
    ghost var use: seq<Use>
    ghost var free: seq<nat>

    ghost function S(): Ram
      reads this
    {
      Ram(lo, pages, use)
    }

    ghost predicate Good()
      reads this
    {
      Tree(S()) && FreeOk(S(), freelist, free)
    }

    /** kfree; callers must have taken the page out of use. */
    method Kfree(p: nat)
      requires Good() && lo <= p < |pages| && use[p].Other?
      modifies this
      ensures Good() && SameMaps(old(S()), S()) && |pages| == old(|pages|)
      ensures use == old(use)[p := Free] && free == [p] + old(free)
      ensures forall q :: 0 <= q < |pages| && q != p ==> pages[q] == old(pages[q])
    {
      hide Tree;
      ghost var s := S();
      var page := Junk(1)[0 := freelist];
      FreePush(s, freelist, free, p, page);
      ReuseTreeMaps(s, p, page, Free);
      pages := pages[p := page];
      freelist := p;
      use, free := use[p := Free], [p] + free;
    }

    /** kalloc: a free page, or 0 when there is none. */
    method Kalloc() returns (p: nat)
      requires Good()
      modifies this
      ensures Good() && SameMaps(old(S()), S()) && |pages| == old(|pages|)
      ensures p == 0 <==> old(free) == []
      ensures p == 0 ==> S() == old(S()) && free == old(free)
      ensures p != 0 ==>
                && lo <= p < |pages| && p == old(free)[0] && old(use)[p].Free?
                && use == old(use)[p := Other] && free == old(free)[1..]
      ensures forall q :: 0 <= q < |pages| && q != p ==> pages[q] == old(pages[q])
    {
      hide Tree;
      ghost var s := S();
      FreeHead(s, freelist, free);
      p := freelist;
      if p != 0 {
        FreePop(s, freelist, free, Junk(5));
        ReuseTreeMaps(s, p, Junk(5), Other);
        freelist := pages[p][0];
        pages := pages[p := Junk(5)];
        use, free := use[p := Other], free[1..];
      } else {
        MapsSame(s);
      }
    }

    /** The part of walk that makes a missing table; 0 if there is no memory. */
    method NewTable(p: nat, i: nat, ghost r: nat, ghost v: nat, ghost level: nat) returns (c: nat)
      requires Good() && IsRoot(S(), r) && v < NVPN && 0 < level <= 2 && i == Px(level, v)
      requires p == TableAt(pages, r, v, level) && Live(S(), p, level) && pages[p][i] == 0
      modifies this
      ensures Good() && Grows(old(S()), S())
      ensures c == 0 ==> S() == old(S()) && old(free) == [] && free == []
      ensures c != 0 ==> c == TableAt(pages, r, v, level - 1) && Live(S(), c, level - 1) && |free| == old(|free|) - 1
    {
      hide Tree, Grows, SameMaps, FreeOk, Px, TableAt, V, MakePte;
      ghost var s := S();
      SizesOf(s);
      c := Kalloc();
      if c == 0 {
        GrowsSame(s);
        return;
      }
      NewTableOk(s, S(), freelist, free, c, r, v, level);
      pages := pages[c := ZeroPage()];
      pages := SetPte(pages, p, i, MakePte(c, 0));
      use := use[c := Inner(p, i, level - 1)];
    }

    /** walk: the table and index of the entry for va, table 0 if there is none or no memory to
        make one. */
    method Walk(r: nat, va: nat, alloc: bool) returns (t: nat, i: nat)
      requires Good() && IsRoot(S(), r) && va < MAXVA
      modifies this
      ensures Good() && Grows(old(S()), S())
      ensures t == Table0(pages, r, va / PGSIZE) && i == Px(0, va / PGSIZE)
      ensures t != 0 ==> Live(S(), t, 0)
      ensures !alloc ==> S() == old(S()) && free == old(free)
      ensures alloc && t == 0 ==> free == []
      ensures old(|free|) <= |free| + 2
    {
      hide Tree, Grows, Px, Table1, Table0, Child, V, Ppn, FreeOk;
      ghost var v := va / PGSIZE;
      GrowsStart(S());
      var level := 2;
      t := r;
      while level > 0
        invariant 0 <= level <= 2 && Good() && IsRoot(S(), r) && Grows(old(S()), S())
        invariant t == TableAt(pages, r, v, level) && Live(S(), t, level)
        invariant !alloc ==> S() == old(S()) && free == old(free)
        invariant old(|free|) <= |free| + 2 - level
      {
        ghost var s := S();
        SizesOf(s);
        TableBelow(s, r, v, level);
        var j := Px(level, va / PGSIZE);
        if V(pages[t][j]) {
          t := Ppn(pages[t][j]);
        } else {
          if !alloc {
            return 0, Px(0, va / PGSIZE);
          }
          t := NewTable(t, j, r, v, level);
          GrowsTrans(old(S()), s, S());
          GrowsRoot(s, S(), r);
          if t == 0 {
            return 0, Px(0, va / PGSIZE);
          }
        }
        level := level - 1;
      }
      SizesOf(S());
      i := Px(0, va / PGSIZE);
    }

    /** mappages: map n pages from va on to the pages from pa on; false if a table was needed
        and there was no memory, with the first k pages mapped. */
    method Mappages(r: nat, va: nat, n: nat, pa: nat, perm: nat) returns (ok: bool, ghost k: nat)
      requires Good() && IsRoot(S(), r) && va % PGSIZE == 0 && 0 < n && va / PGSIZE + n <= NVPN && 2 <= perm < 1024
      requires forall v :: va / PGSIZE <= v < va / PGSIZE + n ==> Pte(pages, r, v) == 0
      modifies this
      ensures Good() && Inserted(old(S()), S(), r, va / PGSIZE, k, pa, perm)
      ensures if ok then k == n && (forall v :: va / PGSIZE <= v < va / PGSIZE + n ==>
                Table0(pages, r, v) != 0) else k < n && free == []
      ensures old(|free|) <= |free| + 2 * n
    {
      hide Tree, Inserted, Pte, Table0, Px, MakePte, FreeOk, Grows, V;
      ghost var s, v0 := S(), va / PGSIZE;
      SizesOf(s);
      InsertedNone(s, r, v0, pa, perm);
      k := 0;
      var a, p := va, pa;
      var last := va + n * PGSIZE - PGSIZE;
      while true
        invariant Good() && IsRoot(S(), r) && k < n && a == va + k * PGSIZE && p == pa + k
        invariant Inserted(s, S(), r, v0, k, pa, perm)
        invariant forall v :: v0 <= v < v0 + k ==> Table0(pages, r, v) != 0
        invariant old(|free|) <= |free| + 2 * k
        decreases n - k
      {
        ghost var s1 := S();
        PageOf(va, k);
        var t, i := Walk(r, a, true);
        GrowsRoot(s1, S(), r);
        InsertedGrows(s, s1, S(), r, v0, k, pa, perm);
        if t == 0 {
          return false, k;
        }
        MapStep(s, S(), freelist, free, r, v0, k, pa, perm);
        MapTables(s1, S(), r, v0, k);
        ghost var s2 := S();
        pages := SetPte(pages, t, i, MakePte(p, perm));
        if a == last {
          k := k + 1;
          return true, k;
        }
        k := k + 1;
        a, p := a + PGSIZE, p + 1;
      }
    }

    /** memset or memmove on a page in nobody else's use. */
    method Fill(d: nat, content: Page)
      requires Good() && lo <= d < |pages| && d < |use| && use[d].Other?
      modifies this`pages
      ensures Good() && pages == old(pages)[d := content] && SameMaps(old(S()), S())
    {
      hide Tree, FreeOk;
      ghost var s := S();
      ReuseTreeMaps(s, d, content, Other);
      assert use[d := Other] == use;
      FillFree(s, freelist, free, d, content);
      pages := pages[d := content];
    }

    /** What uvmalloc and uvmcopy do for one page: take a page, fill it and map it; false, with
        the page given back, if memory ran out. */
    method AddPage(r: nat, va: nat, content: Page, perm: nat) returns (ok: bool)
      requires Good() && IsRoot(S(), r) && va % PGSIZE == 0 && va < MAXVA && 2 <= perm < 1024
      requires Pte(pages, r, va / PGSIZE) == 0
      modifies this
      ensures Good()
      ensures ok ==> Allocated(old(S()), S(), r, va / PGSIZE, [content], [perm]) && old(|free|) <= |free| + 3
      ensures !ok ==> Grows(old(S()), S()) && |free| <= 1 && old(|free|) <= 3
    {
      hide Tree, Inserted, Allocated, Pte, Table0, Px, MakePte, FreeOk, Grows;
      ghost var s := S();
      SizesOf(s);
      var d := Kalloc();
      if d == 0 {
        GrowsSame(s);
        return false;
      }
      ghost var sk := S();
      Fill(d, content);
      ghost var s0 := S();
      MapsTrans(s, sk, s0);
      ghost var k;
      ok, k := Mappages(r, va, 1, d, perm);
      ghost var s1 := S();
      SizesOf(s1);
      InsertedUse(s0, s1, r, va / PGSIZE, k, d, perm);
      if !ok {
        Kfree(d);
        FailGrows(s, s0, s1, S(), r, va / PGSIZE, d, perm);
        return false;
      }
      AllocatedOne(s, s0, s1, r, va / PGSIZE, d, perm);
      UseFree(s1, freelist, free, d, Leaf(Table0(pages, r, va / PGSIZE), Px(0, va / PGSIZE)));
      use := use[d := Leaf(Table0(pages, r, va / PGSIZE), Px(0, va / PGSIZE))];
    }

    /** One turn of uvmunmap. */
    method Unmap(r: nat, va: nat, doFree: bool, ghost s: Ram, ghost v0: nat, ghost k: nat)
      requires Good() && IsRoot(S(), r) && IsRoot(s, r) && va < MAXVA && va / PGSIZE == v0 + k
      requires Pte(pages, r, v0 + k) != 0
      requires Pte(s.pages, r, v0 + k) == Pte(pages, r, v0 + k) && Removed(s, S(), r, v0, k, doFree)
      requires if doFree then Owned(S(), r, v0 + k) else NotOwned(S(), r, v0 + k)
      modifies this
      ensures Good() && IsRoot(S(), r) && Removed(s, S(), r, v0, k + 1, doFree)
      ensures |free| == old(|free|) + if doFree then 1 else 0
    {
      hide Tree, Pte, Table0, Px, FreeOk, Removed, Ppn, Owned, NotOwned;
      ghost var s1 := S();
      SizesOf(s1);
      var t, i := Walk(r, va, false);
      PteAt(s1, r, v0 + k);
      if doFree {
        var pa := Ppn(pages[t][i]);
        OwnedBy(s1, r, v0 + k);
        ReuseTreeMaps(s1, pa, pages[pa], Other);
        UseFree(s1, freelist, free, pa, Other);
        assert pages[pa := pages[pa]] == pages;
        use := use[pa := Other];
        ghost var s1' := S();
        Kfree(pa);
        ghost var s2 := S();
        MapsTrans(s1, s1', s2);
        FreedTable(s1, s2, pa, r, v0 + k);
        RemovedFree(s, s1, s2, r, v0, k);
        ClearTree(s2, freelist, free, r, v0 + k);
      } else {
        NotOwnedBy(s1, r, v0 + k);
        RemovedKeep(s, s1, r, v0, k);
        ClearTree(s1, freelist, free, r, v0 + k);
      }
      pages := SetPte(pages, t, i, 0);
    }

    /** uvmunmap: remove the mappings of n pages from va on, which must exist. */
    method Uvmunmap(r: nat, va: nat, n: nat, doFree: bool)
      requires Good() && IsRoot(S(), r) && va % PGSIZE == 0 && va / PGSIZE + n <= NVPN
      requires forall v :: va / PGSIZE <= v < va / PGSIZE + n ==> Pte(pages, r, v) != 0
      requires forall v :: va / PGSIZE <= v < va / PGSIZE + n ==>
                 if doFree then Owned(S(), r, v) else NotOwned(S(), r, v)
      modifies this
      ensures Good() && IsRoot(S(), r) && Removed(old(S()), S(), r, va / PGSIZE, n, doFree)
      ensures |free| == old(|free|) + if doFree then n else 0
    {
      hide Tree, Pte, Table0, Px, FreeOk, Removed, Ppn, Owned, NotOwned;
      ghost var s, v0 := S(), va / PGSIZE;
      SizesOf(s);
      RemovedNone(s, r, v0, doFree);
      var a := va;
      ghost var k := 0;
      while a < va + n * PGSIZE
        invariant k <= n && a == va + k * PGSIZE && Good() && IsRoot(S(), r)
        invariant Removed(s, S(), r, v0, k, doFree) && |free| == old(|free|) + if doFree then k else 0
        decreases n - k
      {
        PageOf(va, k);
        StillThere(s, S(), r, v0, k, n, doFree);
        Unmap(r, a, doFree, s, v0, k);
        a := a + PGSIZE;
        k := k + 1;
      }
    }

    /** uvmdealloc: shrink from oldsz to newsz, both in bytes. */
    method Uvmdealloc(r: nat, oldsz: nat, newsz: nat) returns (sz: nat)
      requires Good() && IsRoot(S(), r) && oldsz <= MAXVA
      requires forall v :: Up(newsz) <= v < Up(oldsz) ==> Pte(pages, r, v) != 0 && Owned(S(), r, v)
      modifies this
      ensures Good() && IsRoot(S(), r) && sz == if newsz < oldsz then newsz else oldsz
      ensures Removed(old(S()), S(), r, Up(newsz), Pages(newsz, oldsz), true)
      ensures |free| == old(|free|) + Pages(newsz, oldsz)
    {
      hide Tree, Pte, Owned, Removed, FreeOk;
      SizesOf(S());
      RemovedNone(S(), r, Up(newsz), true);
      if newsz >= oldsz {
        UpMonotone(oldsz, newsz);
        return oldsz;
      }
      UpMonotone(newsz, oldsz);
      if PgRoundUp(newsz) < PgRoundUp(oldsz) {
        RoundedDifference(newsz, oldsz);
        var npages := (PgRoundUp(oldsz) - PgRoundUp(newsz)) / PGSIZE;
        Uvmunmap(r, PgRoundUp(newsz), npages, true);
      }
      return newsz;
    }

    /** uvmalloc: grow from oldsz to newsz with fresh zeroed pages; 0 if memory ran out, and then
        only tables may have been added. */
    method Uvmalloc(r: nat, oldsz: nat, newsz: nat, xperm: nat) returns (sz: nat)
      requires Good() && IsRoot(S(), r) && newsz <= MAXVA && xperm in {0, PTE_W, PTE_X, PTE_W + PTE_X}
      requires forall v :: Up(oldsz) <= v < Up(newsz) ==> Pte(pages, r, v) == 0
      modifies this
      ensures Good() && IsRoot(S(), r)
      ensures newsz < oldsz ==> sz == oldsz && S() == old(S())
      ensures newsz >= oldsz && sz != 0 ==>
                sz == newsz && Zeroed(old(S()), S(), r, Up(oldsz), Pages(oldsz, newsz), PTE_R + PTE_U + xperm)
      ensures newsz >= oldsz && newsz > 0 && sz == 0 ==>
                Grows(old(S()), S()) && |free| <= Pages(oldsz, newsz) && old(|free|) <= 3 * Pages(oldsz, newsz)
    {
      hide Tree, Pte, FreeOk, Allocated, Grows;
      sz := oldsz;
      if newsz < oldsz {
        return;
      }
      var perm := PTE_R + PTE_U + xperm;
      ghost var s, v0 := S(), Up(oldsz);
      UpMonotone(oldsz, newsz);
      SizesOf(s);
      AllocatedNone(s, r, v0);
      var a := PgRoundUp(oldsz);
      ghost var k := 0;
      Rounded(oldsz);
      while a < newsz
        invariant Good() && IsRoot(S(), r) && a == PGSIZE * (v0 + k) && v0 + k <= Up(newsz)
        invariant Zeroed(s, S(), r, v0, k, perm) && old(|free|) <= |free| + 3 * k
        decreases Up(newsz) - (v0 + k)
      {
        BelowUp(v0 + k, newsz);
        ghost var s1 := S();
        ghost var contents, perms := Copies(k, ZeroPage()), Copies<nat>(k, perm);
        Untouched(s, s1, r, v0, contents, perms);
        var ok := AddPage(r, a, ZeroPage(), perm);
        if !ok {
          AllocatedGrows(s, s1, S(), r, v0, contents, perms);
          GiveBack(s, r, v0, a, oldsz, contents, perms);
          return 0;
        }
        AllocatedNext(s, s1, S(), r, v0, contents, perms, ZeroPage(), perm);
        AllocatedRoot(s1, S(), r, v0 + k, [ZeroPage()], [perm], r);
        a := a + PGSIZE;
        k := k + 1;
      }
      AboveUp(v0 + k, newsz);
      return newsz;
    }

    /** The error path of uvmalloc: unmap and free what was added. */
    method GiveBack(ghost s: Ram, r: nat, ghost v0: nat, a: nat, oldsz: nat, ghost contents: seq<Page>,
                    ghost perms: seq<nat>)
      requires Good() && IsRoot(s, r) && v0 == Up(oldsz) && a == PGSIZE * (v0 + |contents|) && a <= MAXVA
      requires Allocated(s, S(), r, v0, contents, perms)
      requires forall v :: v0 <= v < v0 + |contents| ==> Pte(s.pages, r, v) == 0
      modifies this
      ensures Good() && IsRoot(S(), r) && Grows(s, S()) && |free| == old(|free|) + |contents|
    {
      hide Tree, Pte, Owned, Removed, FreeOk, Allocated, Grows;
      ghost var s1 := S();
      FreshOwned(s, s1, r, v0, contents, perms);
      Rounded(oldsz);
      UpExact(v0 + |contents|);
      var sz := Uvmdealloc(r, a, PgRoundUp(oldsz));
      AllocatedUndone(s, s1, S(), r, v0, contents, perms);
    }

    /** uvmcopy: copy the first sz bytes of page table r into r2, pages and permissions; false if
        memory ran out, and then only tables may have been added. */
    method Uvmcopy(r: nat, r2: nat, sz: nat) returns (ok: bool)
      requires Good() && IsRoot(S(), r) && IsRoot(S(), r2) && r != r2 && sz <= MAXVA
      requires forall v :: 0 <= v < Up(sz) ==> Owned(S(), r, v) && Pte(pages, r2, v) == 0
      modifies this
      ensures Good() && IsRoot(S(), r) && IsRoot(S(), r2)
      ensures ok ==> Allocated(old(S()), S(), r2, 0, PagesOf(old(S()), r, Up(sz)), PermsOf(old(S()), r, Up(sz)))
      ensures !ok ==> Grows(old(S()), S()) && |free| <= Up(sz) && old(|free|) <= 3 * Up(sz)
    {
      hide Tree, Pte, FreeOk, Allocated, Grows, Owned, Table0, Px;
      ghost var s := S();
      SizesOf(s);
      AllocatedNone(s, r2, 0);
      var i := 0;
      ghost var k := 0;
      while i < sz
        invariant Good() && IsRoot(S(), r) && IsRoot(S(), r2) && i == PGSIZE * k && k <= Up(sz)
        invariant Allocated(s, S(), r2, 0, PagesOf(s, r, k), PermsOf(s, r, k)) && old(|free|) <= |free| + 3 * k
        decreases Up(sz) - k
      {
        BelowUp(k, sz);
        ghost var s1 := S();
        ghost var contents, perms := PagesOf(s, r, k), PermsOf(s, r, k);
        Source(s, s1, r, r2, k, contents, perms);
        Untouched(s, s1, r2, 0, contents, perms);
        var t, j := Walk(r, i, false);
        PteAt(s1, r, k);
        var pte := pages[t][j];
        PermOk(s1, t, j);
        var content := pages[Ppn(pte)];
        ok := AddPage(r2, i, content, Flags(pte));
        if !ok {
          AllocatedGrows(s, s1, S(), r2, 0, contents, perms);
          GrowsRoot(s1, S(), r2);
          ghost var s2 := S();
          FreshOwned(s, s2, r2, 0, contents, perms);
          Uvmunmap(r2, 0, i / PGSIZE, true);
          AllocatedUndone(s, s2, S(), r2, 0, contents, perms);
          GrowsRoot(s, S(), r);
          return;
        }
        AllocatedNext(s, s1, S(), r2, 0, contents, perms, content, Flags(pte));
        AllocatedRoot(s1, S(), r2, k, [content], [Flags(pte)], r2);
        AllocatedRoot(s1, S(), r2, k, [content], [Flags(pte)], r);
        i := i + PGSIZE;
        k := k + 1;
      }
      AboveUp(k, sz);
      ok := true;
    }

    /** freewalk: free the tables from p down, which must hold no mappings any more. */
    method Freewalk(p: nat, ghost level: nat)
      requires Good() && level <= 2 && CutOk(S(), p) && use[p] == Cut(level) && Bare(S(), p)
      modifies this
      ensures Good() && TornDown(old(S()), S(), p) && SameMaps(old(S()), S())
      decreases level
    {
      hide Tree, FreeOk, SameMaps, CutOk, Bare, TornDown, Walked, Gone, V, Ppn, Rwx, Empty;
      ghost var s := S();
      CutSizes(s, p);
      WalkedNone(s, p);
      MapsSame(s);
      for i := 0 to ENTRIES
        invariant Good() && Walked(s, S(), p, i) && SameMaps(s, S())
      {
        EntryKind(s, p, i);
        WalkedEntry(s, S(), p, i);
        ZeroInvalid();
        var pte := pages[p][i];
        if V(pte) && Rwx(pte) == 0 {
          FreeChild(p, i, Ppn(pte), level, s);
        } else {
          assert !V(pte);
          WalkedSkip(s, S(), p, i);
        }
      }
      ghost var s1 := S();
      WalkedAll(s, s1, p);
      WalkedSizes(s, s1, p);
      DropTree(s1, p);
      UseFree(s1, freelist, free, p, Other);
      use := use[p := Other];
      ghost var s1' := S();
      MapsTrans(s, s1, s1');
      NotLowTable(s, p);
      Kfree(p);
      MapsTrans(s, s1', S());
      TornDownLast(s, s1, S(), p);
    }

    /** One turn of freewalk's loop: free the tables below entry i and clear it. */
    method FreeChild(p: nat, i: nat, c: nat, ghost level: nat, ghost s: Ram)
      requires Good() && 0 < level <= 2 && i < ENTRIES && Tree(s) && CutOk(s, p) && Bare(s, p) && s.use[p] == Cut(level)
      requires Walked(s, S(), p, i) && SameMaps(s, S()) && s.pages[p][i] != 0 && c == Ppn(s.pages[p][i])
      modifies this
      ensures Good() && Walked(s, S(), p, i + 1) && SameMaps(s, S())
      decreases level, 0
    {
      hide Tree, FreeOk, SameMaps, CutOk, Bare, TornDown, Walked, Gone, V, Ppn;
      ghost var s1 := S();
      WalkedSizes(s, s1, p);
      ChildReady(s, s1, p, i, c);
      UseFree(s1, freelist, free, c, Cut(level - 1));
      use := use[c := Cut(level - 1)];
      ghost var s2 := S();
      MapsTrans(s, s1, s2);
      Freewalk(c, level - 1);
      ghost var s3 := S();
      MapsTrans(s, s2, s3);
      WalkedNext(s, s1, s3, p, i, c);
      ClearCut(s3, p, i);
      SetFree(s3, freelist, free, p, i, 0);
      pages := SetPte(pages, p, i, 0);
      MapsTrans(s, s3, S());
    }

    /** uvmfree: free the user memory and then the page table. */
    method Uvmfree(r: nat, sz: nat)
      requires Good() && IsRoot(S(), r) && sz <= MAXVA
      requires forall v: nat :: v < NVPN && Pte(pages, r, v) != 0 ==> v < Up(sz)
      requires forall v: nat :: v < Up(sz) ==> Owned(S(), r, v)
      modifies this
      ensures Good() && Returned(old(S()), S(), r) && OtherMaps(old(S()), S(), r) && DataKept(old(S()), S())
    {
      hide Tree, Pte, Owned, Removed, FreeOk, SameMaps, CutOk, Bare, TornDown, Returned, OtherMaps, DataKept, Up;
      hide PgRoundUp;
      ghost var s := S();
      SizesOf(s);
      RemovedNone(s, r, 0, true);
      UpRange(sz);
      if sz > 0 {
        OwnedMapped(s, r, Up(sz));
        Uvmunmap(r, 0, PgRoundUp(sz) / PGSIZE, true);
      }
      ghost var s1 := S();
      NothingLeft(s, s1, r, Up(sz));
      BareRoot(s1, r);
      CutRoot(s1, r);
      SizesOf(s1);
      UseFree(s1, freelist, free, r, Cut(2));
      use := use[r := Cut(2)];
      ghost var s2 := S();
      Freewalk(r, 2);
      ReturnedAll(s, s1, S(), r, Up(sz));
      OthersStay(s, s1, S(), r, Up(sz));
      DataStays(s, s1, s2, S(), r, Up(sz));
    }

    /** uvmcreate: an empty page table, or 0. */
    method Uvmcreate() returns (r: nat)
      requires Good()
      modifies this
      ensures Good() && |use| == old(|use|) && |pages| == old(|pages|)
      ensures r == 0 <==> old(free) == []
      ensures r == 0 ==> S() == old(S())
      ensures r != 0 ==>
                && r < |use| && old(use)[r].Free? && use == old(use)[r := Root] && free == old(free)[1..]
                && (forall q :: 0 <= q < |pages| && q != r ==> pages[q] == old(pages[q]))
                && OtherMaps(old(S()), S(), r) && forall v: nat :: v < NVPN ==> Pte(pages, r, v) == 0
    {
      hide Tree, FreeOk, SameMaps, OtherMaps;
      ghost var s := S();
      SizesOf(s);
      r := Kalloc();
      if r == 0 {
        return;
      }
      ghost var s0 := S();
      Fill(r, ZeroPage());
      ghost var s1 := S();
      MapsTrans(s, s0, s1);
      NewRoot(s1, r);
      UseFree(s1, freelist, free, r, Root);
      use := use[r := Root];
      RootOthers(s, s1, r);
    }

    /** kinit: all pages from lo to hi are free. */
    constructor (lo: nat, hi: nat)
      requires 0 < lo <= hi
      ensures Good() && |pages| == hi && this.lo == lo
      ensures forall p :: 0 <= p < hi ==> use[p] == if p < lo then Other else Free
    {
      this.lo := lo;
      pages := Copies(hi, ZeroPage());
      freelist := 0;
      use := Copies(hi, Other);
      free := [];
      new;
      hide SameMaps;
      for p := lo to hi
        invariant Good() && |pages| == hi == |use|
        invariant forall q :: 0 <= q < hi ==> use[q] == if lo <= q < p then Free else Other
      {
        Kfree(p);
      }
    }
  }

  lemma GrowsStart(s: Ram)
    requires Tree(s)
    ensures Grows(s, s)
  {
  }

  lemma GrowsRoot(s: Ram, s': Ram, r: nat)
    requires Grows(s, s') && IsRoot(s, r)
    ensures IsRoot(s', r)
  {
  }

  lemma MapsSame(s: Ram)
    ensures SameMaps(s, s)
  {
  }

  lemma SizesOf(s: Ram)
    requires Tree(s)
    ensures Sizes(s)
  {
  }

  lemma ReuseTreeMaps(s: Ram, p: nat, page: Page, u: Use)
    requires Tree(s) && s.lo <= p < |s.use| && !IsTable(s.use[p]) && (u.Free? || u.Other?)
    ensures Tree(Ram(s.lo, s.pages[p := page], s.use[p := u]))
    ensures SameMaps(s, Ram(s.lo, s.pages[p := page], s.use[p := u]))
  {
    hide Entries, Parents, Leaves;
    ReuseTree(s, p, page, u);
    ReuseMaps(s, p, page, u);
  }

  lemma FreePush(s: Ram, head: nat, free: seq<nat>, p: nat, page: Page)
    requires FreeOk(s, head, free) && p < |s.use| && !s.use[p].Free? && page[0] == head
    ensures FreeOk(Ram(s.lo, s.pages[p := page], s.use[p := Free]), p, [p] + free)
  {
    hide FreeSet, FreeLinks;
    PushSet(s.use, free, p);
    PushLinks(s.pages, head, free, p, page);
  }

  lemma PushSet(use: seq<Use>, free: seq<nat>, p: nat)
    requires FreeSet(use, free) && p < |use| && !use[p].Free?
    ensures p !in free && FreeSet(use[p := Free], [p] + free)
  {
    var free' := [p] + free;
    assert forall k :: 0 < k < |free'| ==> free'[k] == free[k - 1];
    forall q | 0 <= q < |use| && (q == p || use[q].Free?)
      ensures q in free'
    {
      assert q == p || q in free;
    }
  }

  lemma PushLinks(pages: seq<Page>, head: nat, free: seq<nat>, p: nat, page: Page)
    requires FreeLinks(pages, head, free) && p !in free && p < |pages| && page[0] == head
    ensures FreeLinks(pages[p := page], p, [p] + free)
  {
    var free' := [p] + free;
    forall k | 0 <= k < |free'|
      ensures free'[k] < |pages| && pages[p := page][free'[k]][0] == Follow(free', k + 1)
    {
      if k > 0 {
        assert free'[k] == free[k - 1];
      }
    }
  }

  lemma FreeHead(s: Ram, head: nat, free: seq<nat>)
    requires Tree(s) && FreeOk(s, head, free)
    ensures head == 0 <==> free == []
    ensures head != 0 ==> s.lo <= head < |s.use| && s.use[head].Free? && head == free[0]
  {
    if free != [] {
      NotLow(s, free[0]);
    }
  }

  lemma FreePop(s: Ram, head: nat, free: seq<nat>, page: Page)
    requires FreeOk(s, head, free) && free != []
    ensures head < |s.use|
    ensures FreeOk(Ram(s.lo, s.pages[head := page], s.use[head := Other]), s.pages[head][0], free[1..])
  {
    hide FreeSet;
    PopSet(s.use, free);
    PopLinks(s.pages, head, free, page);
  }

  lemma PopSet(use: seq<Use>, free: seq<nat>)
    requires FreeSet(use, free) && free != []
    ensures free[0] < |use| && free[0] !in free[1..] && FreeSet(use[free[0] := Other], free[1..])
  {
    assert free == [free[0]] + free[1..];
    forall q | 0 <= q < |use| && q != free[0] && use[q].Free?
      ensures q in free[1..]
    {
      assert q in free;
    }
  }

  lemma PopLinks(pages: seq<Page>, head: nat, free: seq<nat>, page: Page)
    requires FreeLinks(pages, head, free) && free != [] && head !in free[1..]
    ensures head == free[0] && FreeLinks(pages[head := page], pages[head][0], free[1..])
  {
    var free' := free[1..];
    forall k | 0 <= k < |free'|
      ensures free'[k] < |pages| && pages[head := page][free'[k]][0] == Follow(free', k + 1)
    {
      assert free'[k] == free[k + 1];
    }
  }

  /** Taking a free page does not affect the way down to a table. */
  lemma KallocPath(s: Ram, s0: Ram, c: nat, r: nat, v: nat, level: nat)
    requires Tree(s) && Tree(s0) && IsRoot(s, r) && level <= 2 && Live(s, TableAt(s.pages, r, v, level), level)
    requires c < |s.use| && s.use[c].Free? && s0.lo == s.lo && s0.use == s.use[c := Other] && |s0.pages| == |s.pages|
    requires forall q :: 0 <= q < |s.pages| && q != c ==> s0.pages[q] == s.pages[q]
    ensures TableAt(s0.pages, r, v, level) == TableAt(s.pages, r, v, level)
  {
    hide Px, Entries, Parents, Leaves, V, Ppn;
    Path(s, r, v);
  }

  lemma NewTableOk(s: Ram, s0: Ram, head: nat, free: seq<nat>, c: nat, r: nat, v: nat, level: nat)
    requires Tree(s) && IsRoot(s, r) && v < NVPN && 0 < level <= 2 && Live(s, TableAt(s.pages, r, v, level), level)
    requires s.pages[TableAt(s.pages, r, v, level)][Px(level, v)] == 0
    requires s.lo <= c < |s.use| && s.use[c].Free? && s0.lo == s.lo && s0.use == s.use[c := Other]
    requires |s0.pages| == |s.pages|
    requires forall q :: 0 <= q < |s.pages| && q != c ==> s0.pages[q] == s.pages[q]
    requires Tree(s0) && SameMaps(s, s0) && FreeOk(s0, head, free)
    ensures var p, i := TableAt(s.pages, r, v, level), Px(level, v);
            && Linkable(s0, p, i, c)
            && var s' := Link(s0, p, i, c);
            && Tree(s') && FreeOk(s', head, free) && Grows(s, s')
            && c == TableAt(s'.pages, r, v, level - 1) && Live(s', c, level - 1)
  {
    hide Entries, Parents, Leaves, Grows, SameMaps, FreeOk, Px, TableAt, V, Link;
    var p, i := TableAt(s.pages, r, v, level), Px(level, v);
    KallocPath(s, s0, c, r, v, level);
    HighIndex(s, r, v, level);
    LinkPath(s0, c, r, v, level);
    LinkTree(s0, p, i, c);
    LinkGrows(s, s0, p, i, c);
    LinkFree(s0, head, free, p, i, c);
  }

  /** Virtual pages below MAXVA use the lower half of the root. */
  lemma HighIndex(s: Ram, r: nat, v: nat, level: nat)
    requires v < NVPN && 0 < level <= 2 && Live(s, TableAt(s.pages, r, v, level), level)
    ensures s.use[TableAt(s.pages, r, v, level)].Root? ==> 0x4_0000 * Px(level, v) < NVPN
  {
  }

  lemma LinkFree(s: Ram, head: nat, free: seq<nat>, p: nat, i: nat, c: nat)
    requires FreeOk(s, head, free) && Linkable(s, p, i, c) && p != c
    ensures FreeOk(Link(s, p, i, c), head, free)
  {
    FreeFrame(s, Link(s, p, i, c), head, free);
  }

  lemma PageOf(va: nat, k: nat)
    requires va % PGSIZE == 0
    ensures (va + k * PGSIZE) / PGSIZE == va / PGSIZE + k && (va / PGSIZE + k < NVPN ==> va + k * PGSIZE < MAXVA)
  {
    assert va == PGSIZE * (va / PGSIZE);
    assert va + k * PGSIZE == PGSIZE * (va / PGSIZE + k);
  }

  /** One turn of mappages: the entry was empty and is filled. */
  lemma MapStep(s: Ram, s2: Ram, head: nat, free: seq<nat>, r: nat, v0: nat, k: nat, pa: nat, perm: nat)
    requires Tree(s2) && FreeOk(s2, head, free) && IsRoot(s, r) && IsRoot(s2, r) && v0 + k < NVPN && 2 <= perm < 1024
    requires Inserted(s, s2, r, v0, k, pa, perm) && Pte(s.pages, r, v0 + k) == 0 && Table0(s2.pages, r, v0 + k) != 0
    ensures var t, i := Table0(s2.pages, r, v0 + k), Px(0, v0 + k);
            && t < |s2.pages| && s2.pages[t][i] == 0
            && var s3 := Ram(s2.lo, SetPte(s2.pages, t, i, MakePte(pa + k, perm)), s2.use);
            && Tree(s3) && FreeOk(s3, head, free) && Inserted(s, s3, r, v0, k + 1, pa, perm)
            && forall v: nat :: v < NVPN ==> Table0(s3.pages, r, v) == Table0(s2.pages, r, v)
  {
    hide Px, MakePte, FreeOk, Entries, Parents, Leaves, V, Flags, Ppn, Table0;
    var t, i, x := Table0(s2.pages, r, v0 + k), Px(0, v0 + k), MakePte(pa + k, perm);
    Path(s2, r, v0 + k);
    PteParts(pa + k, perm);
    assert Pte(s2.pages, r, v0 + k) == InsertedPte(s, r, v0, k, pa, perm, r, v0 + k);
    InsertedNext(s, s2, r, v0, k, pa, perm);
    assert s2.pages[t][i] == 0;
    NoLeaf(s2, t, i);
    SetPteTree(s2, t, i, x);
    SetFree(s2, head, free, t, i, x);
    forall v: nat | v < NVPN
      ensures Table0(SetPte(s2.pages, t, i, x), r, v) == Table0(s2.pages, r, v)
    {
      SetPteMaps(s2, r, v0 + k, x, r, v);
    }
  }

  lemma SetFree(s: Ram, head: nat, free: seq<nat>, t: nat, i: nat, x: nat)
    requires FreeOk(s, head, free) && t < |s.use| && !s.use[t].Free? && i < ENTRIES
    ensures FreeOk(Ram(s.lo, SetPte(s.pages, t, i, x), s.use), head, free)
  {
    FreeFrame(s, Ram(s.lo, SetPte(s.pages, t, i, x), s.use), head, free);
  }

  lemma MapTables(s1: Ram, s2: Ram, r: nat, v0: nat, k: nat)
    requires Tree(s1) && Tree(s2) && IsRoot(s1, r) && Grows(s1, s2)
    requires forall v :: v0 <= v < v0 + k ==> Table0(s1.pages, r, v) != 0
    ensures forall v :: v0 <= v < v0 + k ==> Table0(s2.pages, r, v) != 0
  {
    hide Tree, Table0, Pte;
    forall v: nat | v0 <= v < v0 + k
      ensures Table0(s2.pages, r, v) != 0
    {
      TablesPersist(s1, s2, r, v);
    }
  }

  lemma UseFree(s: Ram, head: nat, free: seq<nat>, d: nat, u: Use)
    requires FreeOk(s, head, free) && d < |s.use| && !s.use[d].Free? && !u.Free?
    ensures FreeOk(Ram(s.lo, s.pages, s.use[d := u]), head, free)
  {
    FreeFrame(s, Ram(s.lo, s.pages, s.use[d := u]), head, free);
  }

  lemma FillFree(s: Ram, head: nat, free: seq<nat>, d: nat, content: Page)
    requires FreeOk(s, head, free) && d < |s.use| && !s.use[d].Free?
    ensures FreeOk(Ram(s.lo, s.pages[d := content], s.use), head, free)
  {
    FreeFrame(s, Ram(s.lo, s.pages[d := content], s.use), head, free);
  }

  lemma MapsTrans(s: Ram, t: Ram, u: Ram)
    requires SameMaps(s, t) && SameMaps(t, u)
    ensures SameMaps(s, u)
  {
    hide Pte;
  }

  lemma InsertedUse(s0: Ram, s1: Ram, r: nat, v: nat, k: nat, d: nat, perm: nat)
    requires Inserted(s0, s1, r, v, k, d, perm) && d < |s0.use| && s0.use[d].Other?
    ensures s1.lo == s0.lo && |s1.use| == |s0.use| && s1.use[d].Other?
  {
  }

  /** A page that was taken and could not be mapped is back; at most tables were added. */
  lemma FailGrows(s: Ram, s0: Ram, s1: Ram, s2: Ram, r: nat, v: nat, d: nat, perm: nat)
    requires Sizes(s) && s.lo <= d < |s.use| && s.use[d].Free? && SameMaps(s, s0) && s0.lo == s.lo
    requires s0.use == s.use[d := Other] && |s0.pages| == |s.pages|
    requires forall q :: 0 <= q < |s.pages| && q != d ==> s0.pages[q] == s.pages[q]
    requires Inserted(s0, s1, r, v, 0, d, perm)
    requires SameMaps(s1, s2) && s2.lo == s1.lo && s2.use == s1.use[d := Free] && |s2.pages| == |s1.pages|
    requires forall q :: 0 <= q < |s2.pages| && q != d ==> s2.pages[q] == s1.pages[q]
    ensures Grows(s, s2)
  {
    hide Pte, MakePte;
    forall r': nat, w: nat | IsRoot(s, r') && w < NVPN
      ensures Pte(s2.pages, r', w) == Pte(s.pages, r', w)
    {
      assert Pte(s1.pages, r', w) == InsertedPte(s0, r, v, 0, d, perm, r', w);
    }
    assert forall r': nat :: IsRoot(s, r') ==> IsRoot(s0, r');
    forall p | 0 <= p < |s.use| && (s.use[p].Leaf? || s.use[p].Other?)
      ensures s2.pages[p] == s.pages[p]
    {
      assert s0.use[p] == s.use[p];
    }
  }

  lemma PteAt(s: Ram, r: nat, v: nat)
    requires Tree(s) && IsRoot(s, r) && v < NVPN && Pte(s.pages, r, v) != 0
    ensures var t := Table0(s.pages, r, v);
            0 < t < |s.pages| && Live(s, t, 0) && s.pages[t][Px(0, v)] == Pte(s.pages, r, v)
  {
    hide Entries, Parents, Leaves, Px, Table0;
    Path(s, r, v);
  }

  /** The page mapped at v does not belong to that entry. */
  predicate NotOwned(s: Ram, r: nat, v: nat) {
    forall d :: 0 <= d < |s.use| ==> s.use[d] != Leaf(Table0(s.pages, r, v), Px(0, v))
  }

  lemma OwnedBy(s: Ram, r: nat, v: nat)
    requires Tree(s) && Owned(s, r, v)
    ensures var d := Ppn(Pte(s.pages, r, v));
            && s.lo <= d < |s.use| && s.use[d].Leaf?
            && forall e :: 0 <= e < |s.use| && e != d ==> s.use[e] != Leaf(Table0(s.pages, r, v), Px(0, v))
  {
    hide Px, Ppn, Table0;
    var d := Ppn(Pte(s.pages, r, v));
    forall e: nat | e < |s.use| && e != d
      ensures s.use[e] != Leaf(Table0(s.pages, r, v), Px(0, v))
    {
      assert LeafOk(s, d);
      assert s.use[e].Leaf? ==> LeafOk(s, e);
    }
  }

  lemma NotOwnedBy(s: Ram, r: nat, v: nat)
    requires NotOwned(s, r, v)
    ensures forall e :: 0 <= e < |s.use| ==> s.use[e] != Leaf(Table0(s.pages, r, v), Px(0, v))
  {
  }

  /** Freeing a data page leaves the tables where they are. */
  lemma FreedTable(s: Ram, s2: Ram, d: nat, r: nat, v: nat)
    requires Tree(s) && Tree(s2) && IsRoot(s, r) && v < NVPN && Table0(s.pages, r, v) != 0 && Owned(s, r, v)
    requires d == Ppn(Pte(s.pages, r, v)) && s2.use == s.use[d := Free]
    ensures Table0(s2.pages, r, v) == Table0(s.pages, r, v)
    ensures forall e :: 0 <= e < |s2.use| ==> s2.use[e] != Leaf(Table0(s2.pages, r, v), Px(0, v))
  {
    hide Tree, Table0, Pte, Px;
    OwnedBy(s, r, v);
    TablesPersist(s, s2, r, v);
  }

  lemma ClearTree(s: Ram, head: nat, free: seq<nat>, r: nat, v: nat)
    requires Tree(s) && FreeOk(s, head, free) && IsRoot(s, r) && v < NVPN && Table0(s.pages, r, v) != 0
    requires forall e :: 0 <= e < |s.use| ==> s.use[e] != Leaf(Table0(s.pages, r, v), Px(0, v))
    ensures Table0(s.pages, r, v) < |s.pages|
    ensures var s' := Ram(s.lo, SetPte(s.pages, Table0(s.pages, r, v), Px(0, v), 0), s.use);
            Tree(s') && FreeOk(s', head, free)
  {
    hide FreeOk, Entries, Parents, Leaves, Px, Table0, V, Ppn, Flags;
    Path(s, r, v);
    SetPteTree(s, Table0(s.pages, r, v), Px(0, v), 0);
    SetFree(s, head, free, Table0(s.pages, r, v), Px(0, v), 0);
  }

  /** The pages that uvmunmap has not reached yet are as they were. */
  lemma StillThere(s: Ram, s1: Ram, r: nat, v0: nat, k: nat, n: nat, doFree: bool)
    requires Tree(s) && Tree(s1) && IsRoot(s, r) && k < n && v0 + n <= NVPN && Removed(s, s1, r, v0, k, doFree)
    requires forall v :: v0 <= v < v0 + n ==> Pte(s.pages, r, v) != 0
    requires forall v :: v0 <= v < v0 + n ==> if doFree then Owned(s, r, v) else NotOwned(s, r, v)
    ensures Pte(s1.pages, r, v0 + k) == Pte(s.pages, r, v0 + k) != 0
    ensures if doFree then Owned(s1, r, v0 + k) else NotOwned(s1, r, v0 + k)
  {
    hide Tree, Px, Table0, Pte, Ppn;
    PteAt(s, r, v0 + k);
    TablesPersist(s, s1, r, v0 + k);
    assert Within(r, v0, n, r, v0 + k) && !Within(r, v0, k, r, v0 + k);
    assert if doFree then Owned(s, r, v0 + k) else NotOwned(s, r, v0 + k);
    if doFree {
      forall v: nat | v0 <= v < v0 + k
        ensures Ppn(Pte(s.pages, r, v)) != Ppn(Pte(s.pages, r, v0 + k))
      {
        OwnedApart(s, r, v, v0 + k);
      }
    }
  }

  lemma OwnedApart(s: Ram, r: nat, v: nat, w: nat)
    requires Tree(s) && IsRoot(s, r) && v < NVPN && w < NVPN && v != w && Owned(s, r, v) && Owned(s, r, w)
    ensures Ppn(Pte(s.pages, r, v)) != Ppn(Pte(s.pages, r, w))
  {
    hide Tree, Px, Table0, Pte, Ppn;
    if Ppn(Pte(s.pages, r, v)) == Ppn(Pte(s.pages, r, w)) {
      EntryUnique(s, r, v, r, w);
    }
  }

  // sizes in bytes and pages

  function PgRoundUp(sz: nat): nat {
    (sz + PGSIZE - 1) / PGSIZE * PGSIZE
  }

  /** The number of pages that sz bytes need. */
  function Up(sz: nat): nat {
    (sz + PGSIZE - 1) / PGSIZE
  }

  function Pages(lo: nat, hi: nat): nat {
    if Up(lo) < Up(hi) then Up(hi) - Up(lo) else 0
  }

  lemma UpMonotone(x: nat, y: nat)
    requires x <= y
    ensures Up(x) <= Up(y)
  {
  }

  lemma Rounded(sz: nat)
    ensures PgRoundUp(sz) == PGSIZE * Up(sz) && PgRoundUp(sz) % PGSIZE == 0 && PgRoundUp(sz) / PGSIZE == Up(sz)
    ensures Up(PgRoundUp(sz)) == Up(sz)
  {
    UpExact(Up(sz));
  }

  lemma UpExact(n: nat)
    ensures Up(PGSIZE * n) == n && PGSIZE * n / PGSIZE == n && PGSIZE * n % PGSIZE == 0
  {
    assert (PGSIZE * n + (PGSIZE - 1)) / PGSIZE == n;
  }

  lemma RoundedDifference(lo: nat, hi: nat)
    requires Up(lo) <= Up(hi) && hi <= MAXVA
    ensures (PgRoundUp(hi) - PgRoundUp(lo)) / PGSIZE == Up(hi) - Up(lo) && Up(hi) <= NVPN
    ensures PgRoundUp(lo) / PGSIZE == Up(lo) && PgRoundUp(lo) % PGSIZE == 0
    ensures PgRoundUp(lo) < PgRoundUp(hi) <==> Up(lo) < Up(hi)
  {
    Rounded(lo);
    Rounded(hi);
    UpExact(Up(hi) - Up(lo));
    UpMonotone(hi, MAXVA);
  }

  lemma BelowUp(n: nat, sz: nat)
    requires PGSIZE * n < sz <= MAXVA
    ensures n < Up(sz) <= NVPN && PGSIZE * n / PGSIZE == n && PGSIZE * n % PGSIZE == 0 && PGSIZE * n < MAXVA
  {
    UpExact(n);
    UpMonotone(PGSIZE * n + 1, sz);
    UpMonotone(sz, MAXVA);
    assert Up(PGSIZE * n + 1) == n + 1;
  }

  lemma AboveUp(n: nat, sz: nat)
    requires PGSIZE * n >= sz
    ensures n >= Up(sz)
  {
    UpExact(n);
    UpMonotone(sz, PGSIZE * n);
  }

  /** k fresh pages full of zeros with permissions perm. */
  ghost predicate Zeroed(s: Ram, s': Ram, r: nat, v0: nat, k: nat, perm: nat) {
    Allocated(s, s', r, v0, Copies(k, ZeroPage()), Copies<nat>(k, perm))
  }

  lemma AllocatedRoot(s: Ram, s1: Ram, r: nat, v0: nat, contents: seq<Page>, perms: seq<nat>, q: nat)
    requires Allocated(s, s1, r, v0, contents, perms) && IsRoot(s, q)
    ensures IsRoot(s1, q)
  {
  }

  /** The next page of the range is still unmapped. */
  lemma Untouched(s: Ram, s1: Ram, r: nat, v0: nat, contents: seq<Page>, perms: seq<nat>)
    requires Allocated(s, s1, r, v0, contents, perms) && IsRoot(s, r) && v0 + |contents| < NVPN
    ensures Pte(s1.pages, r, v0 + |contents|) == Pte(s.pages, r, v0 + |contents|)
  {
    hide Pte;
    assert !Within(r, v0, |contents|, r, v0 + |contents|);
  }

  lemma FreshOwned(s: Ram, s1: Ram, r: nat, v0: nat, contents: seq<Page>, perms: seq<nat>)
    requires Allocated(s, s1, r, v0, contents, perms) && Tree(s1) && IsRoot(s, r)
    ensures IsRoot(s1, r)
    ensures forall v :: v0 <= v < v0 + |contents| ==> Pte(s1.pages, r, v) != 0 && Owned(s1, r, v)
  {
    hide Pte, Table0, Px, Ppn, MakePte, V, Entries, Parents, Leaves;
    forall v: nat | v0 <= v < v0 + |contents|
      ensures Pte(s1.pages, r, v) != 0 && Owned(s1, r, v)
    {
      assert Fresh(s, s1, r, v0 + (v - v0), contents[v - v0], perms[v - v0]);
      PteParts(Ppn(Pte(s1.pages, r, v)), perms[v - v0]);
      ZeroInvalid();
      NotLow(s1, Ppn(Pte(s1.pages, r, v)));
    }
  }

  /** The contents of the first n pages of page table r. */
  ghost function PagesOf(s: Ram, r: nat, n: nat): (c: seq<Page>)
    ensures |c| == n
  {
    if n == 0 then [] else PagesOf(s, r, n - 1) + [PageAt(s, r, n - 1)]
  }

  ghost function PageAt(s: Ram, r: nat, v: nat): Page {
    if Ppn(Pte(s.pages, r, v)) < |s.pages| then s.pages[Ppn(Pte(s.pages, r, v))] else ZeroPage()
  }

  /** Their permission bits. */
  ghost function PermsOf(s: Ram, r: nat, n: nat): (c: seq<nat>)
    ensures |c| == n
  {
    if n == 0 then [] else PermsOf(s, r, n - 1) + [Flags(Pte(s.pages, r, n - 1))]
  }

  /** The next page to copy is as it was at the start. */
  lemma Source(s: Ram, s1: Ram, r: nat, r2: nat, k: nat, contents: seq<Page>, perms: seq<nat>)
    requires Tree(s) && Tree(s1) && IsRoot(s, r) && r != r2 && k < NVPN && |contents| == k
    requires Allocated(s, s1, r2, 0, contents, perms) && Owned(s, r, k)
    ensures IsRoot(s1, r) && Pte(s1.pages, r, k) == Pte(s.pages, r, k) != 0
    ensures var d := Ppn(Pte(s.pages, r, k)); d < |s1.pages| && s1.pages[d] == PageAt(s, r, k)
  {
    hide Entries, Parents, Leaves, Pte, Table0, Px, Ppn;
    assert !Within(r2, 0, k, r, k);
  }

  /** A mapping carries some permission. */
  lemma PermOk(s: Ram, t: nat, j: nat)
    requires Tree(s) && Live(s, t, 0) && j < ENTRIES && s.pages[t][j] != 0
    ensures 2 <= Flags(s.pages[t][j]) < 1024
  {
    hide Flags, V, Ppn;
    assert EntryOk(s, t, j);
    FlagsOk(s.pages[t][j]);
  }

  lemma FlagsOk(x: nat)
    requires V(x) && Flags(x) != PTE_V
    ensures 2 <= Flags(x) < 1024
  {
    Parity(x / 1024, x % 1024);
  }

  lemma CutSizes(s: Ram, p: nat)
    requires CutOk(s, p)
    ensures p < |s.use| == |s.pages|
  {
  }

  lemma WalkedSizes(s: Ram, s1: Ram, p: nat)
    requires Walked(s, s1, p, ENTRIES) || exists i: nat :: Walked(s, s1, p, i)
    ensures s1.lo == s.lo && p < |s1.use| == |s1.pages| == |s.use| == |s.pages|
  {
  }

  lemma WalkedEntry(s: Ram, s1: Ram, p: nat, i: nat)
    requires Walked(s, s1, p, i) && i < ENTRIES
    ensures p < |s1.pages| == |s.pages| && s1.pages[p][i] == s.pages[p][i]
  {
  }

  lemma NotLowTable(s: Ram, p: nat)
    requires Tree(s) && CutOk(s, p)
    ensures p >= s.lo
  {
    NotLow(s, p);
  }

  lemma UpRange(sz: nat)
    requires sz <= MAXVA
    ensures PgRoundUp(sz) / PGSIZE == Up(sz) <= NVPN && (sz == 0 ==> Up(sz) == 0)
  {
    Rounded(sz);
    UpMonotone(sz, MAXVA);
  }

  lemma OwnedMapped(s: Ram, r: nat, n: nat)
    requires forall v: nat :: v < n ==> Owned(s, r, v)
    ensures forall v: nat :: v < n ==> Pte(s.pages, r, v) != 0
  {
    forall v: nat | v < n
      ensures Pte(s.pages, r, v) != 0
    {
      assert Owned(s, r, v);
    }
  }

  lemma NothingLeft(s: Ram, s1: Ram, r: nat, n: nat)
    requires IsRoot(s, r) && n <= NVPN && Removed(s, s1, r, 0, n, true)
    requires forall v: nat :: v < NVPN && Pte(s.pages, r, v) != 0 ==> v < n
    ensures forall v: nat :: v < NVPN ==> Pte(s1.pages, r, v) == 0
  {
    hide Pte, Ppn;
    forall v: nat | v < NVPN
      ensures Pte(s1.pages, r, v) == 0
    {
      assert Within(r, 0, n, r, v) <==> v < n;
    }
  }

  lemma OthersStay(s: Ram, s1: Ram, s3: Ram, r: nat, n: nat)
    requires IsRoot(s, r) && Removed(s, s1, r, 0, n, true) && IsRoot(s1, r)
    requires SameMaps(Ram(s1.lo, s1.pages, s1.use[r := Cut(2)]), s3)
    ensures OtherMaps(s, s3, r)
  {
    hide Pte, Ppn;
    var s2 := Ram(s1.lo, s1.pages, s1.use[r := Cut(2)]);
    forall r': nat | IsRoot(s, r') && r' != r
      ensures IsRoot(s3, r')
    {
      assert IsRoot(s1, r') && IsRoot(s2, r');
    }
    forall r': nat, v: nat | IsRoot(s, r') && r' != r && v < NVPN
      ensures Pte(s3.pages, r', v) == Pte(s.pages, r', v)
    {
      assert IsRoot(s1, r') && IsRoot(s2, r') && !Within(r, 0, n, r', v);
    }
  }

  lemma DataStays(s: Ram, s1: Ram, s2: Ram, s3: Ram, r: nat, n: nat)
    requires Removed(s, s1, r, 0, n, true) && s2.pages == s1.pages && r < |s1.use| && s2.use == s1.use[r := Cut(2)]
    requires TornDown(s2, s3, r)
    ensures DataKept(s, s3)
  {
    hide Pte, Ppn, SameElsewhere;
  }

  lemma NewRoot(s: Ram, r: nat)
    requires Tree(s) && s.lo <= r < |s.use| && s.use[r].Other? && s.pages[r] == ZeroPage()
    ensures Tree(Ram(s.lo, s.pages, s.use[r := Root])) && forall v: nat :: v < NVPN ==> Pte(s.pages, r, v) == 0
  {
    hide Ppn, Flags, V, Px;
    ZeroInvalid();
    var s' := Ram(s.lo, s.pages, s.use[r := Root]);
    forall q: nat, j: nat | q < |s'.use| && IsLive(s'.use[q]) && j < ENTRIES && s'.pages[q][j] != 0
      ensures EntryOk(s', q, j)
    {
      assert EntryOk(s, q, j);
    }
    forall d: nat | d < |s'.use| && s'.use[d].Inner?
      ensures ParentOk(s', d)
    {
      assert ParentOk(s, d);
    }
    forall d: nat | d < |s'.use| && s'.use[d].Leaf?
      ensures LeafOk(s', d)
    {
      assert LeafOk(s, d);
    }
  }

  lemma RootOthers(s: Ram, s1: Ram, r: nat)
    requires SameMaps(s, s1) && r < |s1.use|
    ensures OtherMaps(s, Ram(s1.lo, s1.pages, s1.use[r := Root]), r)
  {
    hide Pte;
  }

  /** The free list, the pages of each page table and the kernel's own pages partition memory. */
  lemma Partition(s: Ram, head: nat, free: seq<nat>, p: nat)
    requires Tree(s) && FreeOk(s, head, free) && NoCut(s) && p < |s.use|
    ensures p in free <==> s.use[p].Free?
    ensures p in free || s.use[p].Other? || exists r: nat :: IsRoot(s, r) && Belongs(s, r, p)
    ensures p in free || s.use[p].Other? ==> !exists r: nat :: IsRoot(s, r) && Belongs(s, r, p)
    ensures forall r: nat, r': nat :: IsRoot(s, r) && IsRoot(s, r') && Belongs(s, r, p) && Belongs(s, r', p) ==> r == r'
  {
    hide Tree, FreeLinks, Belongs;
    if IsTable(s.use[p]) || s.use[p].Leaf? {
      OneOwner(s, p);
    }
    forall r: nat | IsRoot(s, r) && Belongs(s, r, p)
      ensures IsTable(s.use[p]) || s.use[p].Leaf?
    {
      BelongsUse(s, r, p);
    }
    forall r: nat, r': nat | IsRoot(s, r) && IsRoot(s, r') && Belongs(s, r, p) && Belongs(s, r', p)
      ensures r == r'
    {
      OnlyOwner(s, p, r, r');
    }
  }

  lemma BelongsUse(s: Ram, r: nat, p: nat)
    requires IsRoot(s, r) && Belongs(s, r, p) && p < |s.use|
    ensures IsTable(s.use[p]) || s.use[p].Leaf?
  {
  }
}
