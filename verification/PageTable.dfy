/** Sv39 page tables (kernel/vm.c, kernel/riscv.h): a three-level radix tree kept in physical
    pages, read as a flat map from virtual page numbers to page-table entries. Addresses of
    pages are page numbers; page 0 stands for the null pointer. */
module PageTable {
  import opened Sequences

  const ENTRIES: nat := 512
  const PGSIZE: nat := 4096
  const MAXVA: nat := 0x40_0000_0000
  /** Virtual pages below MAXVA. */
  const NVPN: nat := MAXVA / PGSIZE

  type Page = p: seq<nat> | |p| == ENTRIES witness Copies(ENTRIES, 0)

  function ZeroPage(): Page {
    Copies<nat>(ENTRIES, 0)
  }

  // entries

  const PTE_V: nat := 1
  const PTE_R: nat := 2
  const PTE_W: nat := 4
  const PTE_X: nat := 8
  const PTE_U: nat := 16

  predicate V(x: nat) {
    x % 2 == 1
  }

  function Flags(x: nat): nat {
    x % 1024
  }

  function Ppn(x: nat): nat {
    x / 1024
  }

  /** The three bits that tell a mapping from a pointer to a lower table. */
  function Rwx(x: nat): nat {
    x / 2 % 8
  }

  /** PA2PTE(pa) | perm | PTE_V. */
  function MakePte(p: nat, perm: nat): nat
    requires perm < 1024
  {
    1024 * p + if perm % 2 == 0 then perm + 1 else perm
  }

  lemma PteParts(p: nat, perm: nat)
    requires perm < 1024
    ensures var x := MakePte(p, perm);
            && V(x) && Ppn(x) == p && Flags(x) == if perm % 2 == 0 then perm + 1 else perm
  {
    var f := if perm % 2 == 0 then perm + 1 else perm;
    Halves(p, f);
  }

  lemma Halves(p: nat, f: nat)
    requires f < 1024 && f % 2 == 1
    ensures (1024 * p + f) / 1024 == p && (1024 * p + f) % 1024 == f && (1024 * p + f) % 2 == 1
  {
    assert 1024 * p + f == 2 * (512 * p + f / 2) + 1;
  }

  lemma Parity(q: nat, f: nat)
    ensures (1024 * q + f) % 2 == f % 2
  {
    var h := 512 * q;
    assert 1024 * q + f == f + 2 * h;
  }

  /** PX(level, va), for the virtual page number va / PGSIZE. */
  function Px(level: nat, v: nat): (i: nat)
    requires level <= 2
    ensures i < ENTRIES
  {
    if level == 0 then v % 512 else if level == 1 then v / 512 % 512 else v / 0x4_0000 % 512
  }

  /** The three indices determine the page. */
  lemma Indices(v: nat, w: nat)
    requires v < NVPN && w < NVPN && Px(2, v) == Px(2, w) && Px(1, v) == Px(1, w) && Px(0, v) == Px(0, w)
    ensures v == w
  {
    Digits(v);
    Digits(w);
  }

  lemma Digits(v: nat)
    requires v < NVPN
    ensures v == 0x4_0000 * Px(2, v) + 512 * Px(1, v) + Px(0, v)
  {
    assert v / 0x4_0000 == v / 512 / 512;
  }

  // the tree as a flat map

  function Child(pages: seq<Page>, p: nat, i: nat): nat
    requires i < ENTRIES
  {
    if 0 < p < |pages| && V(pages[p][i]) then Ppn(pages[p][i]) else 0
  }

  function Table1(pages: seq<Page>, r: nat, v: nat): nat {
    Child(pages, r, Px(2, v))
  }

  function Table0(pages: seq<Page>, r: nat, v: nat): nat {
    Child(pages, Table1(pages, r, v), Px(1, v))
  }

  /** The entry for virtual page v in the page table rooted at r; 0 if there is no table for it. */
  function Pte(pages: seq<Page>, r: nat, v: nat): nat {
    var t := Table0(pages, r, v);
    if 0 < t < |pages| then pages[t][Px(0, v)] else 0
  }

  // who uses which page

  /** What a page is for. A cut table is one that freewalk is taking apart. */
  datatype Use =
    | Free
    | Root
    | Inner(parent: nat, idx: nat, level: nat)
    | Cut(level: nat)
    | Leaf(table: nat, idx: nat)
    | Other

  datatype Ram = Ram(lo: nat, pages: seq<Page>, use: seq<Use>)

  predicate IsTable(u: Use) {
    u.Root? || u.Inner? || u.Cut?
  }

  predicate IsLive(u: Use) {
    u.Root? || u.Inner?
  }

  function Level(u: Use): nat
    requires IsTable(u)
  {
    if u.Root? then 2 else u.level
  }

  predicate Table(s: Ram, p: nat, level: nat) {
    p < |s.use| && IsTable(s.use[p]) && Level(s.use[p]) == level
  }

  predicate Live(s: Ram, p: nat, level: nat) {
    p < |s.use| && IsLive(s.use[p]) && Level(s.use[p]) == level
  }

  /** An entry of an upper table points to the table below that it alone uses; an entry of a bottom
      table is a mapping. */
  predicate EntryOk(s: Ram, p: nat, i: nat)
    requires p < |s.use| == |s.pages| && IsTable(s.use[p]) && i < ENTRIES
  {
    var x := s.pages[p][i];
    && V(x) && (s.use[p].Root? ==> 0x4_0000 * i < NVPN)
    && if Level(s.use[p]) == 0 then Flags(x) != PTE_V
       else Flags(x) == PTE_V && s.lo <= Ppn(x) < |s.use| && s.use[Ppn(x)] == Inner(p, i, Level(s.use[p]) - 1)
  }

  ghost predicate Entries(s: Ram)
    requires |s.use| == |s.pages|
  {
    forall p: nat, i: nat :: p < |s.use| && IsLive(s.use[p]) && i < ENTRIES && s.pages[p][i] != 0 ==> EntryOk(s, p, i)
  }

  ghost predicate Parents(s: Ram)
    requires |s.use| == |s.pages|
  {
    forall c: nat :: c < |s.use| && s.use[c].Inner? ==> ParentOk(s, c)
  }

  predicate ParentOk(s: Ram, c: nat)
    requires c < |s.use| == |s.pages| && s.use[c].Inner?
  {
    var u := s.use[c];
    u.level <= 1 && u.idx < ENTRIES && Table(s, u.parent, u.level + 1)
    && V(s.pages[u.parent][u.idx]) && Ppn(s.pages[u.parent][u.idx]) == c
  }

  ghost predicate Leaves(s: Ram)
    requires |s.use| == |s.pages|
  {
    forall d: nat :: d < |s.use| && s.use[d].Leaf? ==> LeafOk(s, d)
  }

  predicate LeafOk(s: Ram, d: nat)
    requires d < |s.use| == |s.pages| && s.use[d].Leaf?
  {
    var u := s.use[d];
    u.idx < ENTRIES && Table(s, u.table, 0) && V(s.pages[u.table][u.idx]) && Ppn(s.pages[u.table][u.idx]) == d
  }

  predicate Sizes(s: Ram) {
    && |s.use| == |s.pages| && 0 < s.lo <= |s.pages|
    && forall p :: 0 <= p < s.lo ==> s.use[p] == Other
  }

  ghost predicate Tree(s: Ram) {
    Sizes(s) && Entries(s) && Parents(s) && Leaves(s)
  }

  predicate IsRoot(s: Ram, r: nat) {
    r < |s.use| && s.use[r].Root?
  }

  /** The tables on the way to a page, and who they belong to. */
  lemma Path(s: Ram, r: nat, v: nat)
    requires Tree(s) && IsRoot(s, r)
    ensures var t := Table1(s.pages, r, v); t == 0 || (s.lo <= t < |s.use| && s.use[t] == Inner(r, Px(2, v), 1))
    ensures var t := Table0(s.pages, r, v);
            t == 0 || (s.lo <= t < |s.use| && s.use[t] == Inner(Table1(s.pages, r, v), Px(1, v), 0))
  {
    assert r >= s.lo;
    ZeroInvalid();
    if V(s.pages[r][Px(2, v)]) {
      assert EntryOk(s, r, Px(2, v));
      var t := Table1(s.pages, r, v);
      if V(s.pages[t][Px(1, v)]) {
        assert EntryOk(s, t, Px(1, v));
      }
    }
  }

  /** No two virtual pages, and no two page tables, share a bottom entry. */
  lemma EntryUnique(s: Ram, r: nat, v: nat, r': nat, v': nat)
    requires Tree(s) && IsRoot(s, r) && IsRoot(s, r') && v < NVPN && v' < NVPN
    requires Table0(s.pages, r, v) != 0 && Table0(s.pages, r, v) == Table0(s.pages, r', v') && Px(0, v) == Px(0, v')
    ensures r == r' && v == v'
  {
    hide Px, Entries, Parents, Leaves;
    Path(s, r, v);
    Path(s, r', v');
    assert Table1(s.pages, r, v) != 0 && Table1(s.pages, r', v') != 0;
    Indices(v, v');
  }

  /** Every page table translates every page alike. */
  ghost predicate SameMaps(s: Ram, s': Ram) {
    && (forall r: nat :: IsRoot(s, r) ==> IsRoot(s', r))
    && (forall r: nat, v: nat :: IsRoot(s, r) && v < NVPN ==> Pte(s'.pages, r, v) == Pte(s.pages, r, v))
  }

  /** Pages that are no tables do not matter for translation. */
  lemma NoTable(s: Ram, p: nat, page: Page, r: nat, v: nat)
    requires Tree(s) && IsRoot(s, r) && p < |s.use| && !IsTable(s.use[p])
    ensures Pte(s.pages[p := page], r, v) == Pte(s.pages, r, v)
  {
    hide Px, Entries, Parents, Leaves;
    Path(s, r, v);
  }

  // setting an entry of a bottom table

  function SetPte(pages: seq<Page>, t: nat, i: nat, x: nat): seq<Page>
    requires t < |pages| && i < ENTRIES
  {
    pages[t := pages[t][i := x]]
  }

  /** Only the page whose entry it is is translated differently. */
  lemma SetPteMaps(s: Ram, r: nat, v: nat, x: nat, r': nat, v': nat)
    requires Tree(s) && IsRoot(s, r) && IsRoot(s, r') && v < NVPN && v' < NVPN && Table0(s.pages, r, v) != 0
    ensures Table0(s.pages, r, v) < |s.pages|
    ensures var pages := SetPte(s.pages, Table0(s.pages, r, v), Px(0, v), x);
            && Table0(pages, r', v') == Table0(s.pages, r', v')
            && Pte(pages, r', v') == if r' == r && v' == v then x else Pte(s.pages, r', v')
  {
    hide Px, Entries, Parents, Leaves, V, Ppn;
    Path(s, r, v);
    Path(s, r', v');
    var t := Table0(s.pages, r, v);
    var pages := SetPte(s.pages, t, Px(0, v), x);
    assert r' != t;
    assert Table1(pages, r', v') == Table1(s.pages, r', v');
    assert Table1(s.pages, r', v') != t;
    assert Table0(pages, r', v') == Table0(s.pages, r', v');
    if Table0(s.pages, r', v') == t && Px(0, v') == Px(0, v) {
      EntryUnique(s, r, v, r', v');
    }
  }

  /** Setting a bottom entry keeps the tree, if no page is lost by it. */
  lemma SetPteTree(s: Ram, t: nat, i: nat, x: nat)
    requires Tree(s) && Live(s, t, 0) && i < ENTRIES && (x == 0 || (V(x) && Flags(x) != PTE_V))
    requires forall d: nat :: d < |s.use| && s.use[d] == Leaf(t, i) ==> V(x) && Ppn(x) == d
    ensures Tree(Ram(s.lo, SetPte(s.pages, t, i, x), s.use))
  {
    hide V, Ppn, Flags;
    var s' := Ram(s.lo, SetPte(s.pages, t, i, x), s.use);
    forall p: nat, j: nat | p < |s'.use| && IsLive(s'.use[p]) && j < ENTRIES && s'.pages[p][j] != 0
      ensures EntryOk(s', p, j)
    {
      assert p != t || j != i ==> EntryOk(s, p, j);
    }
    forall c: nat | c < |s'.use| && s'.use[c].Inner?
      ensures ParentOk(s', c)
    {
      assert ParentOk(s, c);
    }
    forall d: nat | d < |s'.use| && s'.use[d].Leaf?
      ensures LeafOk(s', d)
    {
      assert LeafOk(s, d);
    }
  }

  // hanging a new table into an inner one

  function Link(s: Ram, p: nat, i: nat, c: nat): Ram
    requires p < |s.use| == |s.pages| && c < |s.use| && i < ENTRIES && IsTable(s.use[p]) && Level(s.use[p]) > 0
  {
    Ram(s.lo, SetPte(s.pages[c := ZeroPage()], p, i, MakePte(c, 0)), s.use[c := Inner(p, i, Level(s.use[p]) - 1)])
  }

  predicate Linkable(s: Ram, p: nat, i: nat, c: nat) {
    && p < |s.use| == |s.pages| && s.lo <= c < |s.use| && i < ENTRIES && IsLive(s.use[p]) && Level(s.use[p]) > 0
    && (s.use[p].Root? ==> 0x4_0000 * i < NVPN) && s.pages[p][i] == 0 && s.use[c].Other?
  }

  lemma LinkTree(s: Ram, p: nat, i: nat, c: nat)
    requires Tree(s) && Linkable(s, p, i, c)
    ensures Tree(Link(s, p, i, c))
  {
    hide Entries, Parents, Leaves;
    LinkEntries(s, p, i, c);
    LinkParents(s, p, i, c);
    LinkLeaves(s, p, i, c);
  }

  lemma LinkEntries(s: Ram, p: nat, i: nat, c: nat)
    requires Tree(s) && Linkable(s, p, i, c)
    ensures Entries(Link(s, p, i, c))
  {
    hide V, Ppn, Flags, MakePte, Parents, Leaves;
    PteParts(c, 0);
    var s' := Link(s, p, i, c);
    forall q: nat, j: nat | q < |s'.use| && IsLive(s'.use[q]) && j < ENTRIES && s'.pages[q][j] != 0
      ensures EntryOk(s', q, j)
    {
      assert q != c && (q != p || j != i) ==> EntryOk(s, q, j);
    }
  }

  lemma LinkParents(s: Ram, p: nat, i: nat, c: nat)
    requires Tree(s) && Linkable(s, p, i, c)
    ensures Parents(Link(s, p, i, c))
  {
    hide V, Ppn, Flags, MakePte, Entries, Leaves;
    PteParts(c, 0);
    LevelBound(s, p);
    ZeroInvalid();
    var s' := Link(s, p, i, c);
    forall d: nat | d < |s'.use| && s'.use[d].Inner?
      ensures ParentOk(s', d)
    {
      assert d != c ==> ParentOk(s, d);
    }
  }

  lemma LinkLeaves(s: Ram, p: nat, i: nat, c: nat)
    requires Tree(s) && Linkable(s, p, i, c)
    ensures Leaves(Link(s, p, i, c))
  {
    hide V, Ppn, Flags, MakePte, Entries, Parents;
    var s' := Link(s, p, i, c);
    forall d: nat | d < |s'.use| && s'.use[d].Leaf?
      ensures LeafOk(s', d)
    {
      assert LeafOk(s, d);
    }
  }

  lemma LevelBound(s: Ram, p: nat)
    requires Tree(s) && p < |s.use| && IsLive(s.use[p])
    ensures Level(s.use[p]) <= 2
  {
    if s.use[p].Inner? {
      assert ParentOk(s, p);
    }
  }

  lemma ZeroInvalid()
    ensures !V(0)
  {
  }

  /** A new empty table translates nothing that was not translated before. */
  lemma LinkMaps(s: Ram, p: nat, i: nat, c: nat, r: nat, v: nat)
    requires Tree(s) && Linkable(s, p, i, c) && IsRoot(s, r) && v < NVPN
    ensures Pte(Link(s, p, i, c).pages, r, v) == Pte(s.pages, r, v)
  {
    hide Px, Entries, Parents, Leaves, V, Ppn, MakePte;
    PteParts(c, 0);
    ZeroInvalid();
    Path(s, r, v);
    var s' := Link(s, p, i, c);
    assert s'.pages[c] == ZeroPage();
    LinkTree(s, p, i, c);
    Path(s', r, v);
  }

  // the tables met by walk

  function TableAt(pages: seq<Page>, r: nat, v: nat, level: nat): nat
    requires level <= 2
  {
    if level == 2 then r else if level == 1 then Table1(pages, r, v) else Table0(pages, r, v)
  }

  lemma TableBelow(s: Ram, r: nat, v: nat, level: nat)
    requires Tree(s) && IsRoot(s, r) && 0 < level <= 2 && Live(s, TableAt(s.pages, r, v, level), level)
    ensures var p := TableAt(s.pages, r, v, level);
            if V(s.pages[p][Px(level, v)])
            then Ppn(s.pages[p][Px(level, v)]) == TableAt(s.pages, r, v, level - 1) &&
                 Live(s, TableAt(s.pages, r, v, level - 1), level - 1)
            else s.pages[p][Px(level, v)] == 0 && TableAt(s.pages, r, v, 0) == 0
  {
    hide Px, Leaves, V, Ppn;
    var p := TableAt(s.pages, r, v, level);
    NotLow(s, p);
    ZeroInvalid();
    assert s.pages[p][Px(level, v)] != 0 ==> EntryOk(s, p, Px(level, v));
  }

  lemma NotLow(s: Ram, p: nat)
    requires Sizes(s) && p < |s.use| && !s.use[p].Other?
    ensures p >= s.lo
  {
  }

  lemma LinkPath(s: Ram, c: nat, r: nat, v: nat, level: nat)
    requires Tree(s) && IsRoot(s, r) && 0 < level <= 2 && Live(s, TableAt(s.pages, r, v, level), level)
    requires Linkable(s, TableAt(s.pages, r, v, level), Px(level, v), c)
    ensures var p := TableAt(s.pages, r, v, level);
            var s' := Link(s, p, Px(level, v), c);
            && TableAt(s'.pages, r, v, level) == p && TableAt(s'.pages, r, v, level - 1) == c && Live(s', c, level - 1)
  {
    hide Px, Entries, Leaves, V, Ppn, MakePte, Parents;
    PteParts(c, 0);
    var p := TableAt(s.pages, r, v, level);
    NotLow(s, p);
    NotLow(s, r);
  }

  // changing the use of pages that are no tables

  lemma ReuseTree(s: Ram, p: nat, page: Page, u: Use)
    requires Tree(s) && s.lo <= p < |s.use| && !IsTable(s.use[p]) && (u.Free? || u.Other?)
    ensures Tree(Ram(s.lo, s.pages[p := page], s.use[p := u]))
  {
    hide V, Ppn, Flags;
    var s' := Ram(s.lo, s.pages[p := page], s.use[p := u]);
    forall q: nat, j: nat | q < |s'.use| && IsLive(s'.use[q]) && j < ENTRIES && s'.pages[q][j] != 0
      ensures EntryOk(s', q, j)
    {
      assert EntryOk(s, q, j);
    }
    forall c: nat | c < |s'.use| && s'.use[c].Inner?
      ensures ParentOk(s', c)
    {
      assert ParentOk(s, c);
    }
    forall d: nat | d < |s'.use| && s'.use[d].Leaf?
      ensures LeafOk(s', d)
    {
      assert LeafOk(s, d);
    }
  }

  lemma ReuseMaps(s: Ram, p: nat, page: Page, u: Use)
    requires Tree(s) && s.lo <= p < |s.use| && !IsTable(s.use[p]) && !u.Root?
    ensures SameMaps(s, Ram(s.lo, s.pages[p := page], s.use[p := u]))
  {
    hide Pte, Entries, Parents, Leaves;
    forall r: nat, v: nat | IsRoot(s, r) && v < NVPN
      ensures Pte(s.pages[p := page], r, v) == Pte(s.pages, r, v)
    {
      NoTable(s, p, page, r, v);
    }
  }

  /** A page that a bottom entry maps may belong to that entry. */
  lemma OwnTree(s: Ram, d: nat, t: nat, i: nat)
    requires Tree(s) && s.lo <= d < |s.use| && s.use[d].Other?
    requires Table(s, t, 0) && i < ENTRIES && V(s.pages[t][i]) && Ppn(s.pages[t][i]) == d
    ensures Tree(Ram(s.lo, s.pages, s.use[d := Leaf(t, i)]))
  {
    hide V, Ppn, Flags;
    var s' := Ram(s.lo, s.pages, s.use[d := Leaf(t, i)]);
    forall q: nat, j: nat | q < |s'.use| && IsLive(s'.use[q]) && j < ENTRIES && s'.pages[q][j] != 0
      ensures EntryOk(s', q, j)
    {
      assert EntryOk(s, q, j);
    }
    forall c: nat | c < |s'.use| && s'.use[c].Inner?
      ensures ParentOk(s', c)
    {
      assert ParentOk(s, c);
    }
    forall e: nat | e < |s'.use| && s'.use[e].Leaf?
      ensures LeafOk(s', e)
    {
      assert e != d ==> LeafOk(s, e);
    }
  }

  // what growing a page table may change

  /** Only free pages changed their use, and only to inner tables. */
  ghost predicate OnlyTables(s: Ram, s': Ram) {
    && |s'.use| == |s.use|
    && forall p :: 0 <= p < |s.use| ==> s'.use[p] == s.use[p] || (s.use[p].Free? && s'.use[p].Inner?)
  }

  ghost predicate DataSame(s: Ram, s': Ram) {
    && |s.pages| == |s'.pages| == |s.use|
    && forall p :: 0 <= p < |s.use| && (s.use[p].Leaf? || s.use[p].Other?) ==> s'.pages[p] == s.pages[p]
  }

  /** walk with alloc: translation and everything but free pages stays. */
  ghost predicate Grows(s: Ram, s': Ram) {
    s'.lo == s.lo && SameMaps(s, s') && OnlyTables(s, s') && DataSame(s, s')
  }

  lemma GrowsSame(s: Ram)
    requires Sizes(s)
    ensures Grows(s, s)
  {
  }

  lemma GrowsTrans(s: Ram, t: Ram, u: Ram)
    requires Grows(s, t) && Grows(t, u)
    ensures Grows(s, u)
  {
    hide Pte;
    forall p | 0 <= p < |s.use| && (s.use[p].Leaf? || s.use[p].Other?)
      ensures u.pages[p] == s.pages[p]
    {
      assert t.use[p] == s.use[p];
    }
  }

  lemma LinkGrows(s: Ram, s0: Ram, p: nat, i: nat, c: nat)
    requires Tree(s0) && Sizes(s) && s.lo <= c < |s.use| && s.use[c].Free?
    requires SameMaps(s, s0) && s0.lo == s.lo && s0.use == s.use[c := Other] && Linkable(s0, p, i, c) && p != c
    requires |s0.pages| == |s.pages| && forall q :: 0 <= q < |s.pages| && q != c ==> s0.pages[q] == s.pages[q]
    ensures Grows(s, Link(s0, p, i, c))
  {
    hide Pte, Entries, Parents, Leaves;
    var s' := Link(s0, p, i, c);
    forall r: nat, v: nat | IsRoot(s, r) && v < NVPN
      ensures IsRoot(s', r) && Pte(s'.pages, r, v) == Pte(s.pages, r, v)
    {
      LinkMaps(s0, p, i, c, r, v);
    }
  }
}
