/** Taking a page table apart (kernel/vm.c, freewalk and uvmfree): which pages hang below a table,
    and why each is reached exactly once. */
module Teardown {
  import opened PageTable
  import opened Mappings

  /** q is p or a table below p. */
  predicate Below(s: Ram, p: nat, q: nat) {
    q == p || Hangs(s, p, q)
  }

  predicate Hangs(s: Ram, p: nat, q: nat) {
    && q < |s.use| && s.use[q].Inner?
    && var u := s.use[q].parent;
    u == p || (u < |s.use| && s.use[u].Inner? && s.use[u].parent == p)
  }

  /** The entry of p through which q is reached. */
  function Via(s: Ram, p: nat, q: nat): nat
    requires Hangs(s, p, q)
  {
    if s.use[q].parent == p then s.use[q].idx else s.use[s.use[q].parent].idx
  }

  /** Every entry of a cut table is empty or leads to a table of its own. */
  ghost predicate CutOk(s: Ram, p: nat) {
    && p < |s.use| == |s.pages| && s.use[p].Cut?
    && forall i: nat :: i < ENTRIES && s.pages[p][i] != 0 ==> EntryOk(s, p, i)
  }

  ghost predicate Empty(page: Page) {
    forall i: nat :: i < ENTRIES ==> page[i] == 0
  }

  /** No mapping is left below p. */
  ghost predicate Bare(s: Ram, p: nat) {
    |s.use| == |s.pages| && forall q: nat :: Below(s, p, q) && Table(s, q, 0) ==> Empty(s.pages[q])
  }

  // cutting a table off

  lemma CutTree(s: Ram, c: nat)
    requires Tree(s) && c < |s.use| && s.use[c].Inner? && s.use[c].parent < |s.use| && s.use[s.use[c].parent].Cut?
    ensures var s' := Ram(s.lo, s.pages, s.use[c := Cut(s.use[c].level)]);
            Tree(s') && CutOk(s', c) && SameMaps(s, s')
  {
    hide V, Ppn, Flags, Pte;
    var s' := Ram(s.lo, s.pages, s.use[c := Cut(s.use[c].level)]);
    NotLow(s, c);
    forall q: nat, j: nat | q < |s'.use| && (IsLive(s'.use[q]) || q == c) && j < ENTRIES && s'.pages[q][j] != 0
      ensures EntryOk(s', q, j)
    {
      assert EntryOk(s, q, j);
    }
    forall d: nat | d < |s'.use| && s'.use[d].Inner?
      ensures ParentOk(s', d)
    {
      assert ParentOk(s, d);
    }
    forall d: nat | d < |s'.use| && s'.use[d].Leaf?
      ensures LeafOk(s', d)
    {
      assert LeafOk(s, d);
    }
  }

  lemma CutRoot(s: Ram, r: nat)
    requires Tree(s) && IsRoot(s, r)
    ensures var s' := Ram(s.lo, s.pages, s.use[r := Cut(2)]);
            Tree(s') && CutOk(s', r)
  {
    hide V, Ppn, Flags, Pte;
    var s' := Ram(s.lo, s.pages, s.use[r := Cut(2)]);
    NotLow(s, r);
    forall q: nat, j: nat | q < |s'.use| && (IsLive(s'.use[q]) || q == r) && j < ENTRIES && s'.pages[q][j] != 0
      ensures EntryOk(s', q, j)
    {
      assert EntryOk(s, q, j);
    }
    forall d: nat | d < |s'.use| && s'.use[d].Inner?
      ensures ParentOk(s', d)
    {
      assert ParentOk(s, d);
    }
    forall d: nat | d < |s'.use| && s'.use[d].Leaf?
      ensures LeafOk(s', d)
    {
      assert LeafOk(s, d);
    }
  }

  /** Clearing an entry of a cut table whose child is gone. */
  lemma ClearCut(s: Ram, p: nat, i: nat)
    requires Tree(s) && p < |s.use| && s.use[p].Cut? && s.use[p].level > 0 && i < ENTRIES
    requires forall d: nat :: d < |s.use| && s.use[d].Inner? && s.use[d].parent == p ==> s.use[d].idx != i
    ensures Tree(Ram(s.lo, SetPte(s.pages, p, i, 0), s.use))
    ensures SameMaps(s, Ram(s.lo, SetPte(s.pages, p, i, 0), s.use))
  {
    hide V, Ppn, Flags, Pte;
    var s' := Ram(s.lo, SetPte(s.pages, p, i, 0), s.use);
    forall q: nat, j: nat | q < |s'.use| && IsLive(s'.use[q]) && j < ENTRIES && s'.pages[q][j] != 0
      ensures EntryOk(s', q, j)
    {
      assert EntryOk(s, q, j);
    }
    forall d: nat | d < |s'.use| && s'.use[d].Inner?
      ensures ParentOk(s', d)
    {
      assert ParentOk(s, d);
    }
    forall d: nat | d < |s'.use| && s'.use[d].Leaf?
      ensures LeafOk(s', d)
    {
      assert LeafOk(s, d);
    }
    forall r: nat, v: nat | IsRoot(s, r) && v < NVPN
      ensures Pte(s'.pages, r, v) == Pte(s.pages, r, v)
    {
      CutUnseen(s, p, s'.pages[p], r, v);
    }
  }

  /** Cut tables do not matter for translation. */
  lemma CutUnseen(s: Ram, p: nat, page: Page, r: nat, v: nat)
    requires Tree(s) && IsRoot(s, r) && p < |s.use| && s.use[p].Cut?
    ensures Pte(s.pages[p := page], r, v) == Pte(s.pages, r, v)
  {
    hide Px, Entries, Parents, Leaves;
    Path(s, r, v);
  }

  /** A cut table without entries and children can be given up. */
  lemma DropTree(s: Ram, p: nat)
    requires Tree(s) && p < |s.use| && s.use[p].Cut? && Empty(s.pages[p])
    requires forall d: nat :: d < |s.use| && s.use[d].Inner? ==> s.use[d].parent != p
    ensures Tree(Ram(s.lo, s.pages, s.use[p := Other])) && SameMaps(s, Ram(s.lo, s.pages, s.use[p := Other]))
  {
    hide Ppn, Flags, Pte;
    var s' := Ram(s.lo, s.pages, s.use[p := Other]);
    forall q: nat, j: nat | q < |s'.use| && IsLive(s'.use[q]) && j < ENTRIES && s'.pages[q][j] != 0
      ensures EntryOk(s', q, j)
    {
      assert EntryOk(s, q, j);
    }
    forall d: nat | d < |s'.use| && s'.use[d].Inner?
      ensures ParentOk(s', d)
    {
      assert ParentOk(s, d);
    }
    ZeroInvalid();
    forall d: nat | d < |s'.use| && s'.use[d].Leaf?
      ensures LeafOk(s', d)
    {
      assert LeafOk(s, d);
    }
  }

  // the progress of freewalk

  /** What freewalk has done to s after i entries of p: the tables reached through them are free. */
  predicate Gone(s: Ram, p: nat, i: nat, q: nat) {
    Hangs(s, p, q) && q != p && Via(s, p, q) < i
  }

  ghost predicate Walked(s: Ram, s': Ram, p: nat, i: nat) {
    && s'.lo == s.lo && |s'.use| == |s.use| == |s.pages| == |s'.pages| && p < |s.use|
    && (forall q: nat :: q < |s.use| ==> s'.use[q] == if Gone(s, p, i, q) then Free else s.use[q])
    && (forall q: nat :: q < |s.use| && q != p && !Gone(s, p, i, q) ==> s'.pages[q] == s.pages[q])
    && (forall j :: 0 <= j < i && j < ENTRIES ==> s'.pages[p][j] == 0)
    && (forall j :: i <= j < ENTRIES ==> s'.pages[p][j] == s.pages[p][j])
  }

  /** All tables from p down are free and nothing else changed. */
  ghost predicate TornDown(s: Ram, s': Ram, p: nat) {
    && s'.lo == s.lo && |s'.use| == |s.use| == |s.pages| == |s'.pages|
    && (forall q: nat :: q < |s.use| ==> s'.use[q] == if Below(s, p, q) then Free else s.use[q])
    && (forall q: nat :: q < |s.use| && !Below(s, p, q) ==> s'.pages[q] == s.pages[q])
  }

  lemma WalkedNone(s: Ram, p: nat)
    requires |s.use| == |s.pages| && p < |s.use|
    ensures Walked(s, s, p, 0)
  {
  }

  /** The child of p at entry i, and the tables reached through it. */
  lemma ChildBelow(s: Ram, s1: Ram, p: nat, i: nat, c: nat, q: nat)
    requires Tree(s) && CutOk(s, p) && i < ENTRIES && s.pages[p][i] != 0 && c == Ppn(s.pages[p][i])
    requires s.use[p].level > 0
    requires Tree(s1) && Walked(s, s1, p, i) && q < |s.use|
    ensures c < |s.use| && s.use[c] == Inner(p, i, s.use[p].level - 1) && s1.use[c] == s.use[c]
    ensures var s2 := Ram(s1.lo, s1.pages, s1.use[c := Cut(s.use[p].level - 1)]);
            Below(s2, c, q) <==> Hangs(s, p, q) && Via(s, p, q) == i
  {
    hide V, Ppn, Flags, Entries, Leaves;
    assert EntryOk(s, p, i);
    var s2 := Ram(s1.lo, s1.pages, s1.use[c := Cut(s.use[p].level - 1)]);
    if Below(s2, c, q) && q != c {
      assert ParentOk(s1, q);
    }
    if Hangs(s, p, q) {
      assert ParentOk(s, q);
      if s.use[q].parent != p {
        assert ParentOk(s, s.use[q].parent);
      }
    }
  }

  /** What freewalk finds in an entry: nothing, or a pointer to a table. */
  lemma EntryKind(s: Ram, p: nat, i: nat)
    requires CutOk(s, p) && Bare(s, p) && i < ENTRIES
    ensures var x := s.pages[p][i]; x == 0 || (V(x) && Rwx(x) == 0 && s.use[p].level > 0)
  {
    var x := s.pages[p][i];
    assert Below(s, p, p);
    if x != 0 {
      assert EntryOk(s, p, i);
      assert s.use[p].level == 0 ==> Table(s, p, 0) && Empty(s.pages[p]);
      assert x == 1024 * (x / 1024) + 1;
    }
  }

  /** Nothing is reached through an empty entry. */
  lemma WalkedSkip(s: Ram, s1: Ram, p: nat, i: nat)
    requires Tree(s) && Walked(s, s1, p, i) && i < ENTRIES && s.pages[p][i] == 0
    ensures Walked(s, s1, p, i + 1)
  {
    hide Entries, Leaves, Ppn;
    ZeroInvalid();
    forall q: nat | q < |s.use|
      ensures Gone(s, p, i + 1, q) == Gone(s, p, i, q)
    {
      if Hangs(s, p, q) {
        assert ParentOk(s, q);
        if s.use[q].parent != p {
          assert ParentOk(s, s.use[q].parent);
        }
      }
    }
  }

  /** The state in which freewalk calls itself. */
  lemma ChildReady(s: Ram, s1: Ram, p: nat, i: nat, c: nat)
    requires Tree(s) && CutOk(s, p) && Bare(s, p) && i < ENTRIES && s.pages[p][i] != 0 && c == Ppn(s.pages[p][i])
    requires Tree(s1) && Walked(s, s1, p, i) && s.use[p].level > 0
    ensures c < |s.use| && s1.use[c] == Inner(p, i, s.use[p].level - 1)
    ensures var s2 := Ram(s1.lo, s1.pages, s1.use[c := Cut(s.use[p].level - 1)]);
            Tree(s2) && CutOk(s2, c) && Bare(s2, c) && SameMaps(s1, s2)
  {
    hide Tree, Ppn, SameMaps, V, Flags, Pte, Bare;
    ChildBelow(s, s1, p, i, c, p);
    assert s1.use[p] == s.use[p];
    CutTree(s1, c);
    var s2 := Ram(s1.lo, s1.pages, s1.use[c := Cut(s.use[p].level - 1)]);
    forall q: nat | Below(s2, c, q) && Table(s2, q, 0)
      ensures Empty(s2.pages[q])
    {
      ChildBelow(s, s1, p, i, c, q);
      assert !Gone(s, p, i, q);
      BareBelow(s, p, q);
    }
    BareIf(s2, c);
  }

  lemma BareBelow(s: Ram, p: nat, q: nat)
    requires Bare(s, p) && Below(s, p, q) && Table(s, q, 0)
    ensures Empty(s.pages[q])
  {
  }

  lemma BareIf(s: Ram, p: nat)
    requires |s.use| == |s.pages| && forall q: nat :: Below(s, p, q) && Table(s, q, 0) ==> Empty(s.pages[q])
    ensures Bare(s, p)
  {
  }

  lemma WalkedNext(s: Ram, s1: Ram, s3: Ram, p: nat, i: nat, c: nat)
    requires Tree(s) && CutOk(s, p) && i < ENTRIES && s.pages[p][i] != 0 && c == Ppn(s.pages[p][i])
    requires Tree(s1) && Walked(s, s1, p, i) && s.use[p].level > 0
    requires c < |s1.use| && TornDown(Ram(s1.lo, s1.pages, s1.use[c := Cut(s.use[p].level - 1)]), s3, c)
    ensures p < |s3.use| == |s3.pages| && s3.use[p] == s.use[p]
    ensures forall d: nat :: d < |s3.use| && s3.use[d].Inner? && s3.use[d].parent == p ==> s3.use[d].idx != i
    ensures Walked(s, Ram(s3.lo, SetPte(s3.pages, p, i, 0), s3.use), p, i + 1)
  {
    hide Tree, Ppn, V, Flags;
    var s2 := Ram(s1.lo, s1.pages, s1.use[c := Cut(s.use[p].level - 1)]);
    forall q: nat | q < |s.use|
      ensures Below(s2, c, q) <==> Hangs(s, p, q) && Via(s, p, q) == i
      ensures s1.use[c] == s.use[c] == Inner(p, i, s.use[p].level - 1)
    {
      ChildBelow(s, s1, p, i, c, q);
    }
    NotOwnParent(s, p);
    var s4 := Ram(s3.lo, SetPte(s3.pages, p, i, 0), s3.use);
    forall q: nat | q < |s.use|
      ensures s4.use[q] == if Gone(s, p, i + 1, q) then Free else s.use[q]
      ensures q != p && !Gone(s, p, i + 1, q) ==> s4.pages[q] == s.pages[q]
    {
    }
  }

  lemma NotOwnParent(s: Ram, p: nat)
    requires CutOk(s, p)
    ensures !Hangs(s, p, p)
  {
  }

  lemma WalkedAll(s: Ram, s1: Ram, p: nat)
    requires Tree(s) && CutOk(s, p) && Walked(s, s1, p, ENTRIES)
    ensures s1.use[p] == s.use[p] && Empty(s1.pages[p])
    ensures forall d: nat :: d < |s1.use| && s1.use[d].Inner? ==> s1.use[d].parent != p
    ensures forall q: nat :: q < |s.use| ==> (Below(s, p, q) <==> q == p || Gone(s, p, ENTRIES, q))
  {
    hide Entries, Leaves, Ppn, V;
    NotOwnParent(s, p);
    forall q: nat | q < |s.use| && Hangs(s, p, q)
      ensures Gone(s, p, ENTRIES, q)
    {
      assert ParentOk(s, q);
      if s.use[q].parent != p {
        assert ParentOk(s, s.use[q].parent);
      }
    }
  }

  lemma TornDownLast(s: Ram, s1: Ram, s2: Ram, p: nat)
    requires Walked(s, s1, p, ENTRIES) && s2.lo == s1.lo && |s2.pages| == |s1.pages|
    requires forall q: nat :: q < |s.use| ==> (Below(s, p, q) <==> q == p || Gone(s, p, ENTRIES, q))
    requires s2.use == s1.use[p := Free] && forall q :: 0 <= q < |s1.pages| && q != p ==> s2.pages[q] == s1.pages[q]
    ensures TornDown(s, s2, p)
  {
    hide Below, Gone;
  }

  // a whole page table

  /** The virtual page with these three indices. */
  function Compose(j2: nat, j1: nat, j0: nat): nat {
    0x4_0000 * j2 + 512 * j1 + j0
  }

  lemma ComposePx(j2: nat, j1: nat, j0: nat)
    requires 0x4_0000 * j2 < NVPN && j1 < ENTRIES && j0 < ENTRIES
    ensures var v := Compose(j2, j1, j0);
            v < NVPN && Px(2, v) == j2 && Px(1, v) == j1 && Px(0, v) == j0
  {
    var v := Compose(j2, j1, j0);
    assert v == 512 * (512 * j2 + j1) + j0;
    assert v / 512 == 512 * j2 + j1 && v % 512 == j0;
    assert v / 0x4_0000 == j2;
  }

  /** A bottom table below a root is on the way to some page, whatever the last index. */
  lemma PathTo(s: Ram, r: nat, t: nat, j0: nat) returns (v: nat)
    requires Tree(s) && IsRoot(s, r) && Hangs(s, r, t) && Table(s, t, 0) && j0 < ENTRIES
    ensures v < NVPN && Table0(s.pages, r, v) == t && Px(0, v) == j0 && Pte(s.pages, r, v) == s.pages[t][j0]
  {
    hide Px, Ppn, V, Leaves;
    ZeroInvalid();
    assert ParentOk(s, t);
    var u := s.use[t].parent;
    assert s.use[u].Inner? && ParentOk(s, u);
    var j2, j1 := s.use[u].idx, s.use[t].idx;
    assert EntryOk(s, r, j2);
    NotLow(s, r);
    NotLow(s, u);
    NotLow(s, t);
    v := Compose(j2, j1, j0);
    ComposePx(j2, j1, j0);
    assert Table1(s.pages, r, v) == u;
  }

  lemma BareRoot(s: Ram, r: nat)
    requires Tree(s) && IsRoot(s, r) && forall v: nat :: v < NVPN ==> Pte(s.pages, r, v) == 0
    ensures Bare(Ram(s.lo, s.pages, s.use[r := Cut(2)]), r)
  {
    hide Pte, Entries, Parents, Leaves;
    var s' := Ram(s.lo, s.pages, s.use[r := Cut(2)]);
    forall q: nat | Below(s', r, q) && Table(s', q, 0)
      ensures Empty(s'.pages[q])
    {
      forall j: nat | j < ENTRIES
        ensures s.pages[q][j] == 0
      {
        var v := PathTo(s, r, q, j);
      }
    }
  }

  /** q is a table or a data page of page table r. */
  predicate Belongs(s: Ram, r: nat, q: nat) {
    Below(s, r, q) || (q < |s.use| && s.use[q].Leaf? && Below(s, r, s.use[q].table))
  }

  /** Every page of page table r is free, and no other page changed its use. */
  ghost predicate Returned(s: Ram, s': Ram, r: nat) {
    && s'.lo == s.lo && |s'.use| == |s.use|
    && forall q: nat :: q < |s.use| ==> s'.use[q] == if Belongs(s, r, q) then Free else s.use[q]
  }

  ghost predicate OtherMaps(s: Ram, s': Ram, r: nat) {
    && (forall r': nat :: IsRoot(s, r') && r' != r ==> IsRoot(s', r'))
    && (forall r': nat, v: nat :: IsRoot(s, r') && r' != r && v < NVPN ==> Pte(s'.pages, r', v) == Pte(s.pages, r', v))
  }

  /** What is still a data page or the kernel's has its old contents. */
  ghost predicate DataKept(s: Ram, s': Ram) {
    && |s'.use| == |s.use| == |s.pages| == |s'.pages|
    && forall p :: 0 <= p < |s.use| && (s'.use[p].Leaf? || s'.use[p].Other?) ==> s'.pages[p] == s.pages[p]
  }

  lemma ReturnedAll(s: Ram, s1: Ram, s3: Ram, r: nat, n: nat)
    requires Tree(s) && IsRoot(s, r) && n <= NVPN && Removed(s, s1, r, 0, n, true)
    requires forall v: nat :: v < NVPN && Pte(s.pages, r, v) != 0 ==> v < n
    requires forall v: nat :: v < n ==> Owned(s, r, v)
    requires IsRoot(s1, r) && TornDown(Ram(s1.lo, s1.pages, s1.use[r := Cut(2)]), s3, r)
    ensures Returned(s, s3, r)
  {
    hide Pte, Table0, Px, Ppn, Entries, Parents, Leaves;
    var s2 := Ram(s1.lo, s1.pages, s1.use[r := Cut(2)]);
    forall q: nat | q < |s.use|
      ensures s3.use[q] == if Belongs(s, r, q) then Free else s.use[q]
    {
      assert s1.use[q].Inner? <==> s.use[q].Inner?;
      BelowSame(s, s2, r, q);
      if s.use[q].Leaf? && Below(s, r, s.use[q].table) {
        LeafFreed(s, s1, r, n, q);
      } else if s1.use[q] != s.use[q] {
        NotFreed(s, s1, r, n, q);
      }
    }
  }

  lemma BelowSame(s: Ram, s2: Ram, r: nat, q: nat)
    requires |s2.use| == |s.use| && IsRoot(s, r) && s2.use[r].Cut?
    requires forall p: nat :: p < |s.use| && p != r && (s.use[p].Inner? || s2.use[p].Inner?) ==> s2.use[p] == s.use[p]
    ensures Below(s2, r, q) <==> Below(s, r, q)
  {
  }

  lemma LeafFreed(s: Ram, s1: Ram, r: nat, n: nat, q: nat)
    requires Tree(s) && IsRoot(s, r) && n <= NVPN && Removed(s, s1, r, 0, n, true)
    requires forall v: nat :: v < NVPN && Pte(s.pages, r, v) != 0 ==> v < n
    requires q < |s.use| && s.use[q].Leaf? && Below(s, r, s.use[q].table)
    ensures s1.use[q].Free?
  {
    hide Pte, Table0, Px, Ppn, Entries, Parents;
    ZeroInvalid();
    assert LeafOk(s, q);
    var v := PathTo(s, r, s.use[q].table, s.use[q].idx);
    assert Ppn(Pte(s.pages, r, v)) == q;
  }

  lemma NotFreed(s: Ram, s1: Ram, r: nat, n: nat, q: nat)
    requires Tree(s) && IsRoot(s, r) && Removed(s, s1, r, 0, n, true) && q < |s.use| && s1.use[q] != s.use[q]
    requires forall v: nat :: v < n ==> Owned(s, r, v)
    ensures Belongs(s, r, q)
  {
    hide Pte, Table0, Px, Ppn, Entries, Parents, Leaves;
    var v: nat :| v < n && Ppn(Pte(s.pages, r, v)) == q;
    assert Owned(s, r, v);
    Path(s, r, v);
    assert Table1(s.pages, r, v) != 0 by {
      TableUp(s.pages, r, v);
    }
  }

  lemma TableUp(pages: seq<Page>, r: nat, v: nat)
    requires Table0(pages, r, v) != 0
    ensures Table1(pages, r, v) != 0
  {
  }

  /** q is met on the way to virtual page v, or is its data page. */
  predicate OnPath(s: Ram, r: nat, v: nat, q: nat) {
    q != 0 && (Table1(s.pages, r, v) == q || Table0(s.pages, r, v) == q ||
        (Owned(s, r, v) && Ppn(Pte(s.pages, r, v)) == q))
  }

  /** The pages of a page table are its root and exactly those its entries lead to. */
  lemma BelongsIsReached(s: Ram, r: nat, q: nat)
    requires Tree(s) && IsRoot(s, r) && q < |s.use| && q != r
    ensures Belongs(s, r, q) <==> exists v: nat :: v < NVPN && OnPath(s, r, v, q)
  {
    hide Entries, Px, Ppn, V;
    if v: nat :| v < NVPN && OnPath(s, r, v, q) {
      Path(s, r, v);
      assert Table0(s.pages, r, v) != 0 ==> Table1(s.pages, r, v) != 0;
    }
    if Belongs(s, r, q) {
      NotLow(s, q);
      if s.use[q].Leaf? {
        assert LeafOk(s, q);
        ZeroInvalid();
        var v := PathTo(s, r, s.use[q].table, s.use[q].idx);
        NotLow(s, s.use[q].table);
        assert OnPath(s, r, v, q);
      } else if s.use[q].parent == r {
        var v := PathTo1(s, r, q);
        assert OnPath(s, r, v, q);
      } else {
        assert ParentOk(s, q) && ParentOk(s, s.use[q].parent);
        var v := PathTo(s, r, q, 0);
        assert OnPath(s, r, v, q);
      }
    }
  }

  lemma PathTo1(s: Ram, r: nat, u: nat) returns (v: nat)
    requires Tree(s) && IsRoot(s, r) && u < |s.use| && s.use[u].Inner? && s.use[u].parent == r
    ensures v < NVPN && Table1(s.pages, r, v) == u
  {
    hide Px, Ppn, V, Leaves;
    ZeroInvalid();
    assert ParentOk(s, u);
    assert EntryOk(s, r, s.use[u].idx);
    NotLow(s, r);
    v := Compose(s.use[u].idx, 0, 0);
    ComposePx(s.use[u].idx, 0, 0);
  }

  /** No teardown is going on. */
  ghost predicate NoCut(s: Ram) {
    forall p :: 0 <= p < |s.use| ==> !s.use[p].Cut?
  }

  /** A table or data page belongs to one page table. */
  lemma OneOwner(s: Ram, q: nat)
    requires Tree(s) && NoCut(s) && q < |s.use| && (IsTable(s.use[q]) || s.use[q].Leaf?)
    ensures exists r: nat :: IsRoot(s, r) && Belongs(s, r, q)
  {
    hide Entries, Ppn, V;
    if s.use[q].Leaf? {
      assert LeafOk(s, q);
      var r := RootOf(s, s.use[q].table);
      assert IsRoot(s, r) && Belongs(s, r, q);
    } else {
      var r := RootOf(s, q);
      assert IsRoot(s, r) && Belongs(s, r, q);
    }
  }

  lemma RootOf(s: Ram, q: nat) returns (r: nat)
    requires Tree(s) && NoCut(s) && q < |s.use| && IsTable(s.use[q])
    ensures IsRoot(s, r) && Below(s, r, q)
  {
    hide Entries, Leaves, Ppn, V;
    r := q;
    if s.use[q].Inner? {
      assert ParentOk(s, q);
      r := s.use[q].parent;
      if s.use[r].Inner? {
        assert ParentOk(s, r);
        r := s.use[r].parent;
        assert s.use[r].Inner? ==> ParentOk(s, r);
      }
    }
  }

  lemma OnlyOwner(s: Ram, q: nat, r: nat, r': nat)
    requires IsRoot(s, r) && IsRoot(s, r') && Belongs(s, r, q) && Belongs(s, r', q)
    ensures r == r'
  {
  }
}
