/** What the operations of kernel/vm.c do to the flat maps and to the pages: inserting mappings,
    adding fresh pages, removing mappings, and undoing an addition. */
module Mappings {
  import opened PageTable

  ghost predicate SameRoots(s: Ram, s': Ram) {
    s'.lo == s.lo && |s'.use| == |s.use| && forall r: nat :: IsRoot(s, r) ==> IsRoot(s', r)
  }

  /** A virtual page of page table r in the range of k pages from v0 on. */
  predicate Within(r: nat, v0: nat, k: nat, r': nat, v: nat) {
    r' == r && v0 <= v < v0 + k
  }

  ghost predicate SameElsewhere(s: Ram, s': Ram, r: nat, v0: nat, k: nat) {
    forall r': nat, v: nat :: IsRoot(s, r') && v < NVPN && !Within(r, v0, k, r', v) ==>
      Pte(s'.pages, r', v) == Pte(s.pages, r', v)
  }

  /** No page belongs to an empty entry. */
  lemma NoLeaf(s: Ram, t: nat, i: nat)
    requires Tree(s) && t < |s.pages| && i < ENTRIES && s.pages[t][i] == 0
    ensures forall d: nat :: d < |s.use| ==> s.use[d] != Leaf(t, i)
  {
    ZeroInvalid();
    forall d: nat | d < |s.use|
      ensures s.use[d] != Leaf(t, i)
    {
      assert s.use[d].Leaf? ==> LeafOk(s, d);
    }
  }

  /** Live tables stay where they are as long as their use stays. */
  lemma TablesPersist(s: Ram, s': Ram, r: nat, v: nat)
    requires Tree(s) && Tree(s') && IsRoot(s, r) && Table0(s.pages, r, v) != 0
    requires |s'.use| == |s.use| && forall p :: 0 <= p < |s.use| && IsLive(s.use[p]) ==> s'.use[p] == s.use[p]
    ensures Table0(s'.pages, r, v) == Table0(s.pages, r, v)
  {
    hide Px, Entries, Leaves, V, Ppn;
    Path(s, r, v);
    var t1, t0 := Table1(s.pages, r, v), Table0(s.pages, r, v);
    assert t1 != 0;
    assert s'.use[t1] == s.use[t1] && ParentOk(s', t1);
    assert s'.use[t0] == s.use[t0] && ParentOk(s', t0);
    NotLow(s', r);
  }

  // mappages

  function InsertedPte(s: Ram, r: nat, v0: nat, k: nat, p0: nat, perm: nat, r': nat, v: nat): nat
    requires perm < 1024
  {
    if Within(r, v0, k, r', v) then MakePte(p0 + (v - v0), perm) else Pte(s.pages, r', v)
  }

  /** Pages v0 .. v0 + k of page table r are mapped to the pages from p0 on, and nothing else
      changed but free pages that became tables. */
  ghost predicate Inserted(s: Ram, s': Ram, r: nat, v0: nat, k: nat, p0: nat, perm: nat) {
    && perm < 1024 && SameRoots(s, s') && OnlyTables(s, s') && DataSame(s, s')
    && forall r': nat, v: nat :: IsRoot(s, r') && v < NVPN ==>
         Pte(s'.pages, r', v) == InsertedPte(s, r, v0, k, p0, perm, r', v)
  }

  lemma InsertedNone(s: Ram, r: nat, v0: nat, p0: nat, perm: nat)
    requires Sizes(s) && perm < 1024
    ensures Inserted(s, s, r, v0, 0, p0, perm)
  {
  }

  lemma InsertedGrows(s: Ram, s1: Ram, s2: Ram, r: nat, v0: nat, k: nat, p0: nat, perm: nat)
    requires Inserted(s, s1, r, v0, k, p0, perm) && Grows(s1, s2)
    ensures Inserted(s, s2, r, v0, k, p0, perm)
  {
    hide Pte, MakePte;
    forall p | 0 <= p < |s.use| && (s.use[p].Leaf? || s.use[p].Other?)
      ensures s2.pages[p] == s.pages[p]
    {
      assert s1.use[p] == s.use[p];
    }
  }

  lemma InsertedNext(s: Ram, s2: Ram, r: nat, v0: nat, k: nat, p0: nat, perm: nat)
    requires Inserted(s, s2, r, v0, k, p0, perm) && Tree(s2) && IsRoot(s, r) && v0 + k < NVPN
    requires Table0(s2.pages, r, v0 + k) != 0
    ensures Table0(s2.pages, r, v0 + k) < |s2.pages|
    ensures var pages := SetPte(s2.pages, Table0(s2.pages, r, v0 + k), Px(0, v0 + k), MakePte(p0 + k, perm));
            Inserted(s, Ram(s2.lo, pages, s2.use), r, v0, k + 1, p0, perm)
  {
    hide Pte, MakePte, Px, Entries, Parents, Leaves, Table0;
    Path(s2, r, v0 + k);
    var t := Table0(s2.pages, r, v0 + k);
    var x := MakePte(p0 + k, perm);
    var s3 := Ram(s2.lo, SetPte(s2.pages, t, Px(0, v0 + k), x), s2.use);
    forall r': nat, v: nat | IsRoot(s, r') && v < NVPN
      ensures Pte(s3.pages, r', v) == InsertedPte(s, r, v0, k + 1, p0, perm, r', v)
    {
      SetPteMaps(s2, r, v0 + k, x, r', v);
    }
  }

  // fresh pages

  /** Virtual page v is mapped to a page that was free, is now its own, and holds `content`. */
  ghost predicate Fresh(s: Ram, s': Ram, r: nat, v: nat, content: Page, perm: nat) {
    var d := Ppn(Pte(s'.pages, r, v));
    && perm < 1024 && Pte(s'.pages, r, v) == MakePte(d, perm) && Table0(s'.pages, r, v) != 0
    && d < |s.use| == |s'.use| == |s'.pages| && s.use[d].Free?
    && s'.use[d] == Leaf(Table0(s'.pages, r, v), Px(0, v)) && s'.pages[d] == content
  }

  /** Only free pages changed their use. */
  ghost predicate OnlyFree(s: Ram, s': Ram) {
    |s'.use| == |s.use| && forall p :: 0 <= p < |s.use| && !s.use[p].Free? ==> s'.use[p] == s.use[p]
  }

  /** Free pages became tables or the data of the range. */
  ghost predicate FreeTaken(s: Ram, s': Ram, r: nat, v0: nat, k: nat) {
    && |s'.use| == |s.use|
    && forall p :: 0 <= p < |s.use| && s.use[p].Free? ==>
         s'.use[p].Free? || s'.use[p].Inner? ||
             (s'.use[p].Leaf? && exists v :: v0 <= v < v0 + k && Ppn(Pte(s'.pages, r, v)) == p)
  }

  /** The pages from v0 on are mapped to fresh pages with these contents and permissions. */
  ghost predicate Allocated(s: Ram, s': Ram, r: nat, v0: nat, contents: seq<Page>, perms: seq<nat>) {
    && |contents| == |perms| && SameRoots(s, s') && OnlyFree(s, s') && DataSame(s, s')
    && FreeTaken(s, s', r, v0, |contents|)
    && SameElsewhere(s, s', r, v0, |contents|)
    && forall j :: 0 <= j < |contents| ==> Fresh(s, s', r, v0 + j, contents[j], perms[j])
  }

  lemma AllocatedNone(s: Ram, r: nat, v0: nat)
    requires Sizes(s)
    ensures Allocated(s, s, r, v0, [], [])
  {
  }

  /** Mapping one page that was just taken from the free list and filled. */
  lemma AllocatedOne(s: Ram, s0: Ram, s1: Ram, r: nat, v: nat, d: nat, perm: nat)
    requires Tree(s) && IsRoot(s, r) && v < NVPN && s.lo <= d < |s.use| && s.use[d].Free? && |s0.pages| == |s.pages|
    requires SameMaps(s, s0) && s0.lo == s.lo && s0.use == s.use[d := Other]
    requires forall q :: 0 <= q < |s.pages| && q != d ==> s0.pages[q] == s.pages[q]
    requires Tree(s1) && Inserted(s0, s1, r, v, 1, d, perm) && Table0(s1.pages, r, v) != 0
    ensures var s2 := Ram(s1.lo, s1.pages, s1.use[d := Leaf(Table0(s1.pages, r, v), Px(0, v))]);
            Tree(s2) && Allocated(s, s2, r, v, [s0.pages[d]], [perm])
  {
    hide Entries, Parents, Leaves, Px, MakePte, V, Ppn, Flags;
    PteParts(d, perm);
    var t := Table0(s1.pages, r, v);
    Path(s1, r, v);
    assert s1.use[d] == s0.use[d];
    assert Pte(s1.pages, r, v) == InsertedPte(s0, r, v, 1, d, perm, r, v) == MakePte(d, perm);
    OwnTree(s1, d, t, Px(0, v));
    var s2 := Ram(s1.lo, s1.pages, s1.use[d := Leaf(t, Px(0, v))]);
    assert Fresh(s, s2, r, v, s0.pages[d], perm);
    forall r': nat, w: nat | IsRoot(s, r') && w < NVPN && !Within(r, v, 1, r', w)
      ensures Pte(s2.pages, r', w) == Pte(s.pages, r', w)
    {
      assert Pte(s2.pages, r', w) == InsertedPte(s0, r, v, 1, d, perm, r', w);
    }
  }

  lemma AllocatedNext(s: Ram, s1: Ram, s2: Ram, r: nat, v0: nat, contents: seq<Page>, perms: seq<nat>, content: Page,
                      perm: nat)
    requires Tree(s1) && Tree(s2) && IsRoot(s, r) && v0 + |contents| < NVPN
    requires Allocated(s, s1, r, v0, contents, perms) && Allocated(s1, s2, r, v0 + |contents|, [content], [perm])
    ensures Allocated(s, s2, r, v0, contents + [content], perms + [perm])
  {
    hide Pte, Table0, Px, MakePte, Ppn, Tree;
    var k := |contents|;
    forall j | 0 <= j < k + 1
      ensures Fresh(s, s2, r, v0 + j, (contents + [content])[j], (perms + [perm])[j])
    {
      if j < k {
        FreshStays(s, s1, s2, r, v0, k, j, contents[j], perms[j]);
      } else {
        assert Fresh(s1, s2, r, v0 + k, [content][0], [perm][0]);
      }
    }
    TakenNext(s, s1, s2, r, v0, k);
  }

  lemma FreshStays(s: Ram, s1: Ram, s2: Ram, r: nat, v0: nat, k: nat, j: nat, content: Page, perm: nat)
    requires Tree(s1) && Tree(s2) && IsRoot(s1, r) && j < k && v0 + k < NVPN && Fresh(s, s1, r, v0 + j, content, perm)
    requires OnlyFree(s1, s2) && DataSame(s1, s2) && SameElsewhere(s1, s2, r, v0 + k, 1)
    ensures Fresh(s, s2, r, v0 + j, content, perm)
  {
    hide Pte, Table0, Px, MakePte, Ppn, Tree;
    TablesPersist(s1, s2, r, v0 + j);
  }

  lemma TakenNext(s: Ram, s1: Ram, s2: Ram, r: nat, v0: nat, k: nat)
    requires FreeTaken(s, s1, r, v0, k) && FreeTaken(s1, s2, r, v0 + k, 1) && OnlyFree(s1, s2)
    requires IsRoot(s1, r) && v0 + k < NVPN && SameElsewhere(s1, s2, r, v0 + k, 1)
    ensures FreeTaken(s, s2, r, v0, k + 1)
  {
    hide Pte, Ppn;
    forall p | 0 <= p < |s.use| && s.use[p].Free? && s2.use[p].Leaf?
      ensures exists v :: v0 <= v < v0 + (k + 1) && Ppn(Pte(s2.pages, r, v)) == p
    {
      if s1.use[p].Free? {
        var v :| v0 + k <= v < v0 + k + 1 && Ppn(Pte(s2.pages, r, v)) == p;
      } else {
        var v :| v0 <= v < v0 + k && Ppn(Pte(s1.pages, r, v)) == p;
        assert Pte(s2.pages, r, v) == Pte(s1.pages, r, v);
      }
    }
  }

  /** Tables made for an attempt that failed do not disturb what was allocated before. */
  lemma AllocatedGrows(s: Ram, s1: Ram, s2: Ram, r: nat, v0: nat, contents: seq<Page>, perms: seq<nat>)
    requires Tree(s1) && Tree(s2) && IsRoot(s, r) && v0 + |contents| < NVPN
    requires Allocated(s, s1, r, v0, contents, perms) && Grows(s1, s2)
    ensures Allocated(s, s2, r, v0, contents, perms)
  {
    hide Pte, Table0, Px, MakePte, Ppn, Tree;
    var k := |contents|;
    forall j | 0 <= j < k
      ensures Fresh(s, s2, r, v0 + j, contents[j], perms[j])
    {
      FreshStays(s, s1, s2, r, v0, k, j, contents[j], perms[j]);
    }
    forall p | 0 <= p < |s.use| && s.use[p].Free? && s2.use[p].Leaf?
      ensures exists v :: v0 <= v < v0 + k && Ppn(Pte(s2.pages, r, v)) == p
    {
      var v :| v0 <= v < v0 + k && Ppn(Pte(s1.pages, r, v)) == p;
      assert Pte(s2.pages, r, v) == Pte(s1.pages, r, v);
    }
  }

  // uvmunmap

  /** The pages v0 .. v0 + k of page table r are unmapped, and freed if `freed` is set. */
  ghost predicate Removed(s: Ram, s': Ram, r: nat, v0: nat, k: nat, freed: bool) {
    && SameRoots(s, s') && |s'.pages| == |s.pages| == |s.use|
    && SameElsewhere(s, s', r, v0, k)
    && (forall v :: v0 <= v < v0 + k ==> Pte(s'.pages, r, v) == 0)
    && (forall p :: 0 <= p < |s.use| ==>
          s'.use[p] == s.use[p] ||
          (freed && s.use[p].Leaf? && s'.use[p].Free? && exists v :: v0 <= v < v0 + k && Ppn(Pte(s.pages, r, v)) == p))
    && (freed ==> forall v :: v0 <= v < v0 + k ==>
        Ppn(Pte(s.pages, r, v)) < |s.use| && s'.use[Ppn(Pte(s.pages, r, v))].Free?)
    && (forall p :: 0 <= p < |s.use| && (s'.use[p].Leaf? || s'.use[p].Other?) ==> s'.pages[p] == s.pages[p])
  }

  /** Unmapping what was allocated gives everything back but the tables. */
  lemma AllocatedUndone(s: Ram, s1: Ram, s2: Ram, r: nat, v0: nat, contents: seq<Page>, perms: seq<nat>)
    requires IsRoot(s, r) && v0 + |contents| <= NVPN && Allocated(s, s1, r, v0, contents, perms)
    requires Removed(s1, s2, r, v0, |contents|, true)
    requires forall v :: v0 <= v < v0 + |contents| ==> Pte(s.pages, r, v) == 0
    ensures Grows(s, s2)
  {
    hide Pte, Table0, Px, MakePte, Ppn;
    var k := |contents|;
    forall p | 0 <= p < |s.use|
      ensures s2.use[p] == s.use[p] || (s.use[p].Free? && s2.use[p].Inner?)
    {
      UndoneUse(s, s1, s2, r, v0, contents, perms, p);
    }
    forall r': nat, v: nat | IsRoot(s, r') && v < NVPN
      ensures Pte(s2.pages, r', v) == Pte(s.pages, r', v)
    {
      if Within(r, v0, k, r', v) {
        assert Pte(s2.pages, r, v) == 0;
      } else {
        assert Pte(s1.pages, r', v) == Pte(s.pages, r', v);
      }
    }
  }

  lemma UndoneUse(s: Ram, s1: Ram, s2: Ram, r: nat, v0: nat, contents: seq<Page>, perms: seq<nat>, p: nat)
    requires Allocated(s, s1, r, v0, contents, perms) && Removed(s1, s2, r, v0, |contents|, true) && p < |s.use|
    ensures s2.use[p] == s.use[p] || (s.use[p].Free? && s2.use[p].Inner?)
  {
    hide Pte, Table0, Px, MakePte, Ppn;
    forall v: nat | v0 <= v < v0 + |contents|
      ensures Ppn(Pte(s1.pages, r, v)) < |s.use| && s.use[Ppn(Pte(s1.pages, r, v))].Free?
    {
      assert Fresh(s, s1, r, v0 + (v - v0), contents[v - v0], perms[v - v0]);
    }
    if s.use[p].Free? && s1.use[p].Leaf? {
      var v :| v0 <= v < v0 + |contents| && Ppn(Pte(s1.pages, r, v)) == p;
      assert s2.use[Ppn(Pte(s1.pages, r, v))].Free?;
    }
  }

  /** Virtual page v is mapped to a page of its own. */
  predicate Owned(s: Ram, r: nat, v: nat) {
    && Table0(s.pages, r, v) != 0 && Pte(s.pages, r, v) != 0 && s.lo <= Ppn(Pte(s.pages, r, v)) < |s.use|
    && s.use[Ppn(Pte(s.pages, r, v))] == Leaf(Table0(s.pages, r, v), Px(0, v))
  }

  lemma RemovedNone(s: Ram, r: nat, v0: nat, freed: bool)
    requires Sizes(s)
    ensures Removed(s, s, r, v0, 0, freed)
  {
  }

  /** Clearing the entry of the next page after the page itself was freed. */
  lemma RemovedFree(s: Ram, s1: Ram, s2: Ram, r: nat, v0: nat, k: nat)
    requires Removed(s, s1, r, v0, k, true) && IsRoot(s, r) && v0 + k < NVPN && Tree(s1)
    requires Owned(s1, r, v0 + k) && Pte(s.pages, r, v0 + k) == Pte(s1.pages, r, v0 + k)
    requires SameMaps(s1, s2) && Tree(s2) && s2.lo == s1.lo && |s2.pages| == |s1.pages|
    requires var d := Ppn(Pte(s1.pages, r, v0 + k));
             && s2.use == s1.use[d := Free]
             && forall q :: 0 <= q < |s1.pages| && q != d ==> s2.pages[q] == s1.pages[q]
    requires Table0(s2.pages, r, v0 + k) != 0
    ensures Table0(s2.pages, r, v0 + k) < |s2.pages|
    ensures var s3 := Ram(s2.lo, SetPte(s2.pages, Table0(s2.pages, r, v0 + k), Px(0, v0 + k), 0), s2.use);
            Removed(s, s3, r, v0, k + 1, true)
  {
    hide Pte, Px, Ppn, Table0, Entries, Parents, Leaves;
    var t := Table0(s2.pages, r, v0 + k);
    Path(s2, r, v0 + k);
    var s3 := Ram(s2.lo, SetPte(s2.pages, t, Px(0, v0 + k), 0), s2.use);
    forall r': nat, v: nat | IsRoot(s, r') && v < NVPN
      ensures Pte(s3.pages, r', v) == if r' == r && v == v0 + k then 0 else Pte(s1.pages, r', v)
    {
      SetPteMaps(s2, r, v0 + k, 0, r', v);
    }
    forall p | 0 <= p < |s.use|
      ensures s3.use[p] == s.use[p] ||
              (s.use[p].Leaf? && s3.use[p].Free? && exists v :: v0 <= v < v0 + (k + 1) && Ppn(Pte(s.pages, r, v)) == p)
    {
      if p == Ppn(Pte(s1.pages, r, v0 + k)) {
        assert Ppn(Pte(s.pages, r, v0 + k)) == p;
        assert s1.use[p].Leaf?;
      } else if s1.use[p] != s.use[p] {
        var v :| v0 <= v < v0 + k && Ppn(Pte(s.pages, r, v)) == p;
        assert v0 <= v < v0 + (k + 1);
      }
    }
  }

  /** Clearing the entry of the next page without freeing the page. */
  lemma RemovedKeep(s: Ram, s1: Ram, r: nat, v0: nat, k: nat)
    requires Removed(s, s1, r, v0, k, false) && IsRoot(s, r) && v0 + k < NVPN && Tree(s1)
    requires Table0(s1.pages, r, v0 + k) != 0
    ensures Table0(s1.pages, r, v0 + k) < |s1.pages|
    ensures var s3 := Ram(s1.lo, SetPte(s1.pages, Table0(s1.pages, r, v0 + k), Px(0, v0 + k), 0), s1.use);
            Removed(s, s3, r, v0, k + 1, false)
  {
    hide Pte, Px, Ppn, Table0, Entries, Parents, Leaves;
    var t := Table0(s1.pages, r, v0 + k);
    Path(s1, r, v0 + k);
    var s3 := Ram(s1.lo, SetPte(s1.pages, t, Px(0, v0 + k), 0), s1.use);
    forall r': nat, v: nat | IsRoot(s, r') && v < NVPN
      ensures Pte(s3.pages, r', v) == if r' == r && v == v0 + k then 0 else Pte(s1.pages, r', v)
    {
      SetPteMaps(s1, r, v0 + k, 0, r', v);
    }
  }
}
