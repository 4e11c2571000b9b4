/** malloc, free and morecore (user/umalloc.c): headers linked into a circular list through
    memory. Addresses and sizes count header-sized units; `heap` is what sbrk has granted. */
module Umalloc {
  import opened FreeList

  const NULL: int := 0
  const UNIT: nat := 16
  const CORE: nat := 4096

  /** The block after block i, around the circle. */
  function Next(l: seq<Blk>, i: nat): int
    requires i < |l|
  {
    if i + 1 < |l| then l[i + 1].addr else l[0].addr
  }

  /** The headers in memory are those of the list. */
  ghost predicate Links(ptr: map<int, int>, size: map<int, int>, l: seq<Blk>) {
    forall i :: 0 <= i < |l| ==> Linked(ptr, size, l, i)
  }

  predicate Linked(ptr: map<int, int>, size: map<int, int>, l: seq<Blk>, i: nat)
    requires i < |l|
  {
    && l[i].addr in ptr && ptr[l[i].addr] == Next(l, i)
    && l[i].addr in size && size[l[i].addr] == l[i].size
  }

  function Cells(b: Blk): set<int> {
    set x: int | b.addr <= x < End(b) && Covers(b, x)
  }

  /** Two blocks have no cell in common. */
  predicate Disjoint(b: Blk, c: Blk) {
    End(b) <= c.addr || End(c) <= b.addr
  }

  ghost predicate LiveCell(live: map<int, int>, x: int) {
    exists a :: a in live && Covers(Blk(a, live[a]), x)
  }

  /** What malloc has handed out: marked with its size, apart from each other and from the free list. */
  ghost predicate LiveOk(size: map<int, int>, l: seq<Blk>, live: map<int, int>, base: int) {
    && (forall a :: a in live ==> live[a] > 0 && base < a && a in size && size[a] == live[a])
    && (forall a, c :: a in live && c in live && a != c ==> Disjoint(Blk(a, live[a]), Blk(c, live[c])))
    && (forall a, i :: a in live && 0 <= i < |l| ==> Disjoint(Blk(a, live[a]), l[i]))
  }

  /** Every cell that sbrk granted is in the free list or live, and no other is. */
  ghost predicate Accounted(l: seq<Blk>, live: map<int, int>, heap: set<int>) {
    forall x :: x in heap <==> FreeCell(l, x) || LiveCell(live, x)
  }

  /** The position of a block that touches no block of the list. */
  lemma {:induction false} FindGap(l: seq<Blk>, b: Blk, n: nat) returns (k: nat)
    requires Sorted(l) && b.size > 0 && l[0].addr < b.addr && n < |l| && End(l[n]) <= b.addr
    requires forall i :: 0 <= i < |l| ==> Disjoint(b, l[i])
    ensures InGap(l, k, b)
    decreases |l| - n
  {
    if n + 1 < |l| && End(l[n + 1]) <= b.addr {
      k := FindGap(l, b, n + 1);
    } else {
      k := n;
      assert n + 1 < |l| ==> Disjoint(b, l[n + 1]);
    }
  }

  /** What free's search sees at block i: it stops exactly at the block before the gap. */
  lemma GapTest(l: seq<Blk>, k: nat, b: Blk, i: nat)
    requires Sorted(l) && InGap(l, k, b) && i < |l|
    ensures b.addr > l[i].addr && b.addr < Next(l, i) <==> i == k && k + 1 < |l|
    ensures i != k || k + 1 == |l| ==>
              (l[i].addr >= Next(l, i) && (b.addr > l[i].addr || b.addr < Next(l, i)) <==> i == k)
  {
    if i < k {
      Apart(l, i, k);
      if i + 1 < k {
        Apart(l, i + 1, k);
      }
    } else if k < i {
      Apart(l, k, i);
      if k + 1 < i {
        Apart(l, k + 1, i);
      }
    }
    if 0 < i {
      Apart(l, 0, i);
    }
  }

  /** Steps around the circle from i to k. */
  function Distance(n: nat, i: nat, k: nat): nat
    requires i < n && k < n
  {
    if i <= k then k - i else n - i + k
  }

  // the headers after free

  predicate Joined(ptr: map<int, int>, size: map<int, int>, ptr': map<int, int>, size': map<int, int>, l: seq<Blk>,
                   k: nat, b: Blk)
    requires k < |l|
  {
    var u, p := Upper(l, k, b), l[k].addr;
    var next := if JoinsUp(l, k, b) then Next(l, k + 1) else Next(l, k);
    if JoinsDown(l, k, b) then
      ptr' == ptr[b.addr := next][p := next] && size' == size[b.addr := u.size][p := l[k].size + u.size]
    else
      ptr' == ptr[b.addr := next][p := b.addr] && size' == size[b.addr := u.size]
  }

  lemma JoinedLinks(ptr: map<int, int>, size: map<int, int>, ptr': map<int, int>, size': map<int, int>, l: seq<Blk>,
                    k: nat, b: Blk)
    requires Sorted(l) && InGap(l, k, b) && Links(ptr, size, l) && Joined(ptr, size, ptr', size', l, k, b)
    ensures Links(ptr', size', Give(l, k, b))
  {
    var g := Give(l, k, b);
    forall i | 0 <= i < |g|
      ensures Linked(ptr', size', g, i)
    {
      JoinedLink(ptr, size, ptr', size', l, k, b, i);
    }
  }

  function Middle(l: seq<Blk>, k: nat, b: Blk): nat
    requires k < |l|
  {
    if JoinsDown(l, k, b) then k else k + 1
  }

  function After(l: seq<Blk>, k: nat, b: Blk): nat {
    if JoinsUp(l, k, b) then k + 2 else k + 1
  }

  /** The new list, block by block. */
  lemma GiveAt(l: seq<Blk>, k: nat, b: Blk, j: nat)
    requires InGap(l, k, b) && j < |l|
    ensures var g, m, d := Give(l, k, b), Middle(l, k, b), After(l, k, b);
            && |g| == m + 1 + (|l| - d)
            && (j < k ==> g[j] == l[j]) && g[k].addr == l[k].addr && (m == k + 1 ==> g[k] == l[k])
            && g[m] == (if JoinsDown(l, k, b) then Blk(l[k].addr, l[k].size + Upper(l, k, b).size) else Upper(l, k, b))
            && (j >= d ==> g[m + 1 + (j - d)] == l[j])
  {
    assert j >= After(l, k, b) ==> Rest(l, k, b)[j - After(l, k, b)] == l[j];
  }

  lemma JoinedLink(ptr: map<int, int>, size: map<int, int>, ptr': map<int, int>, size': map<int, int>, l: seq<Blk>,
                   k: nat, b: Blk, i: nat)
    requires Sorted(l) && InGap(l, k, b) && Links(ptr, size, l) && Joined(ptr, size, ptr', size', l, k, b)
    requires i < |Give(l, k, b)|
    ensures Linked(ptr', size', Give(l, k, b), i)
  {
    hide Give, Links, Linked, Joined, Sorted;
    GiveAt(l, k, b, k);
    if i < k {
      LowLink(ptr, size, ptr', size', l, k, b, i);
    } else if i == k && Middle(l, k, b) == k + 1 {
      BeforeLink(ptr, size, ptr', size', l, k, b);
    } else if i == Middle(l, k, b) {
      MiddleLink(ptr, size, ptr', size', l, k, b);
    } else {
      HighLink(ptr, size, ptr', size', l, k, b, i);
    }
  }

  lemma LowLink(ptr: map<int, int>, size: map<int, int>, ptr': map<int, int>, size': map<int, int>, l: seq<Blk>,
                k: nat, b: Blk, i: nat)
    requires Sorted(l) && InGap(l, k, b) && Links(ptr, size, l) && Joined(ptr, size, ptr', size', l, k, b) && i < k
    ensures i < |Give(l, k, b)| && Linked(ptr', size', Give(l, k, b), i)
  {
    hide Give;
    GiveAt(l, k, b, i);
    GiveAt(l, k, b, i + 1);
    Apart(l, i, k);
    assert Linked(ptr, size, l, i);
  }

  lemma BeforeLink(ptr: map<int, int>, size: map<int, int>, ptr': map<int, int>, size': map<int, int>, l: seq<Blk>,
                   k: nat, b: Blk)
    requires Sorted(l) && InGap(l, k, b) && Links(ptr, size, l) && Joined(ptr, size, ptr', size', l, k, b)
    requires !JoinsDown(l, k, b)
    ensures k < |Give(l, k, b)| && Linked(ptr', size', Give(l, k, b), k)
  {
    hide Give;
    GiveAt(l, k, b, k);
    assert Linked(ptr, size, l, k);
  }

  lemma MiddleLink(ptr: map<int, int>, size: map<int, int>, ptr': map<int, int>, size': map<int, int>, l: seq<Blk>,
                   k: nat, b: Blk)
    requires Sorted(l) && InGap(l, k, b) && Links(ptr, size, l) && Joined(ptr, size, ptr', size', l, k, b)
    ensures Middle(l, k, b) < |Give(l, k, b)| && Linked(ptr', size', Give(l, k, b), Middle(l, k, b))
  {
    hide Give;
    var d := After(l, k, b);
    GiveAt(l, k, b, k);
    GiveAt(l, k, b, if d < |l| then d else k);
    BaseStays(l, k, b);
    assert Linked(ptr, size, l, k);
  }

  lemma HighLink(ptr: map<int, int>, size: map<int, int>, ptr': map<int, int>, size': map<int, int>, l: seq<Blk>,
                 k: nat, b: Blk, i: nat)
    requires Sorted(l) && InGap(l, k, b) && Links(ptr, size, l) && Joined(ptr, size, ptr', size', l, k, b)
    requires Middle(l, k, b) < i < |Give(l, k, b)|
    ensures Linked(ptr', size', Give(l, k, b), i)
  {
    hide Give;
    GiveAt(l, k, b, k);
    var j := After(l, k, b) + (i - Middle(l, k, b) - 1);
    GiveAt(l, k, b, j);
    GiveAt(l, k, b, if j + 1 < |l| then j + 1 else j);
    BaseStays(l, k, b);
    assert Linked(ptr, size, l, j);
    Apart(l, k, j);
    if k + 1 < j {
      Apart(l, k + 1, j);
    }
  }

  // what is live after free and malloc

  lemma FreedLive(size: map<int, int>, size': map<int, int>, l: seq<Blk>, live: map<int, int>, base: int, k: nat,
                  b: Blk)
    requires Sorted(l) && InGap(l, k, b) && l[0].addr == base && LiveOk(size, l, live, base)
    requires b.addr in live && live[b.addr] == b.size
    requires forall a :: a in size && a != b.addr && a != l[k].addr ==> a in size' && size'[a] == size[a]
    ensures LiveOk(size', Give(l, k, b), live - {b.addr}, base)
  {
    hide Give;
    var g := Give(l, k, b);
    forall a | a in live && a != b.addr
      ensures a in size' && size'[a] == live[a]
    {
      assert Disjoint(Blk(a, live[a]), l[k]) && Disjoint(Blk(a, live[a]), b);
      KeyApart(l, live, a, k);
    }
    forall a, i | a in live && a != b.addr && 0 <= i < |g|
      ensures Disjoint(Blk(a, live[a]), g[i])
    {
      GivenApart(l, k, b, Blk(a, live[a]), i);
    }
  }

  /** A live block does not start where a free one does. */
  lemma KeyApart(l: seq<Blk>, live: map<int, int>, a: int, k: nat)
    requires Sorted(l) && k < |l| && a in live && live[a] > 0 && l[0].addr < a && Disjoint(Blk(a, live[a]), l[k])
    ensures a != l[k].addr
  {
    if k > 0 {
      Apart(l, 0, k);
    }
  }

  lemma GivenApart(l: seq<Blk>, k: nat, b: Blk, c: Blk, i: nat)
    requires Sorted(l) && InGap(l, k, b) && i < |Give(l, k, b)| && c.size > 0 && l[0].addr < c.addr
    requires Disjoint(c, b) && forall j :: 0 <= j < |l| ==> Disjoint(c, l[j])
    ensures Disjoint(c, Give(l, k, b)[i])
  {
    hide Give;
    var m, d := Middle(l, k, b), After(l, k, b);
    GiveAt(l, k, b, k);
    assert Disjoint(c, l[k]);
    if i < k {
      GiveAt(l, k, b, i);
      assert Disjoint(c, l[i]);
    } else if i == m {
      assert JoinsUp(l, k, b) ==> Disjoint(c, l[k + 1]);
    } else if i > m {
      GiveAt(l, k, b, d + (i - m - 1));
      assert Disjoint(c, l[d + (i - m - 1)]);
    }
  }

  lemma FreedAccounted(l: seq<Blk>, live: map<int, int>, heap: set<int>, k: nat, b: Blk)
    requires Sorted(l) && InGap(l, k, b) && Accounted(l, live, heap) && b.addr in live && live[b.addr] == b.size
    requires forall a, c :: a in live && c in live && a != c ==> Disjoint(Blk(a, live[a]), Blk(c, live[c]))
    ensures Accounted(Give(l, k, b), live - {b.addr}, heap)
  {
    hide Give;
    var live' := live - {b.addr};
    forall x
      ensures x in heap <==> FreeCell(Give(l, k, b), x) || LiveCell(live', x)
    {
      GiveCells(l, k, b, x);
      LiveWithout(live, b.addr, x);
    }
  }

  lemma LiveWithout(live: map<int, int>, b: int, x: int)
    requires b in live
    ensures LiveCell(live, x) <==> LiveCell(live - {b}, x) || Covers(Blk(b, live[b]), x)
  {
    if LiveCell(live, x) {
      var a :| a in live && Covers(Blk(a, live[a]), x);
      assert a != b ==> a in live - {b} && Covers(Blk(a, (live - {b})[a]), x);
    }
    if LiveCell(live - {b}, x) {
      var a :| a in live - {b} && Covers(Blk(a, (live - {b})[a]), x);
      assert a in live && Covers(Blk(a, live[a]), x);
    }
  }

  lemma TakenLive(size: map<int, int>, size': map<int, int>, l: seq<Blk>, live: map<int, int>, base: int, i: nat,
                  n: int)
    requires Sorted(l) && 0 < i < |l| && 0 < n <= l[i].size && l[0].addr == base && LiveOk(size, l, live, base)
    requires var c := Part(l, i, n).addr; c in size' && size'[c] == n
    requires forall a :: a in size && a != l[i].addr && a != Part(l, i, n).addr ==> a in size' && size'[a] == size[a]
    ensures Part(l, i, n).addr !in live && LiveOk(size', TakeFrom(l, i, n), live[Part(l, i, n).addr := n], base)
  {
    var c := Part(l, i, n);
    Apart(l, 0, i);
    forall a | a in live
      ensures a != c.addr && a != l[i].addr && Disjoint(Blk(a, live[a]), c)
    {
      assert Disjoint(Blk(a, live[a]), l[i]);
    }
    forall j | 0 <= j < |TakeFrom(l, i, n)|
      ensures Disjoint(c, TakeFrom(l, i, n)[j])
      ensures forall a :: a in live ==> Disjoint(Blk(a, live[a]), TakeFrom(l, i, n)[j])
    {
      TakenApart(l, i, n, j);
      var j' := if l[i].size == n && j >= i then j + 1 else j;
      assert forall a :: a in live ==> Disjoint(Blk(a, live[a]), l[j']);
    }
  }

  lemma TakenApart(l: seq<Blk>, i: nat, n: int, j: nat)
    requires Sorted(l) && 0 < i < |l| && 0 < n <= l[i].size && j < |TakeFrom(l, i, n)|
    ensures Disjoint(Part(l, i, n), TakeFrom(l, i, n)[j])
    ensures var j' := if l[i].size == n && j >= i then j + 1 else j;
            j' < |l| && l[j'].addr == TakeFrom(l, i, n)[j].addr && End(TakeFrom(l, i, n)[j]) <= End(l[j'])
  {
    var j' := if l[i].size == n && j >= i then j + 1 else j;
    if j' < i {
      Apart(l, j', i);
    } else if i < j' {
      Apart(l, i, j');
    }
  }

  lemma TakenAccounted(l: seq<Blk>, live: map<int, int>, heap: set<int>, i: nat, n: int)
    requires Sorted(l) && 0 < i < |l| && 0 < n <= l[i].size && Accounted(l, live, heap) && Part(l, i, n).addr !in live
    ensures Accounted(TakeFrom(l, i, n), live[Part(l, i, n).addr := n], heap)
  {
    var c := Part(l, i, n);
    var live' := live[c.addr := n];
    forall x
      ensures x in heap <==> FreeCell(TakeFrom(l, i, n), x) || LiveCell(live', x)
    {
      TakeCells(l, i, n, x);
      LiveWithout(live', c.addr, x);
      assert live' - {c.addr} == live;
      if Covers(c, x) {
        assert Covers(l[i], x);
      }
    }
  }

  /** The headers after malloc took its part from block i. */
  lemma TakenLinks(ptr: map<int, int>, size: map<int, int>, ptr': map<int, int>, size': map<int, int>, l: seq<Blk>,
                   i: nat, n: int)
    requires Sorted(l) && 0 < i < |l| && 0 < n <= l[i].size && Links(ptr, size, l)
    requires if l[i].size == n then ptr' == ptr[l[i - 1].addr := Next(l, i)] && size' == size
             else ptr' == ptr && size' == size[l[i].addr := l[i].size - n][Part(l, i, n).addr := n]
    ensures Links(ptr', size', TakeFrom(l, i, n))
  {
    var t := TakeFrom(l, i, n);
    forall j | 0 <= j < |t|
      ensures Linked(ptr', size', t, j)
    {
      var j' := if l[i].size == n && j >= i then j + 1 else j;
      assert Linked(ptr, size, l, j');
      if j' < i - 1 {
        Apart(l, j', i - 1);
      } else if i - 1 < j' {
        Apart(l, i - 1, j');
      }
      if j' < i {
        Apart(l, j', i);
      } else if i < j' {
        Apart(l, i, j');
      }
    }
  }

  // the allocator

  class Heap {
    const base: int
    var ptr: map<int, int>
    var size: map<int, int>
    var freep: int
    ghost var l: seq<Blk>          // the free list in address order, from base on
    ghost var f: nat               // the place of freep in it
    ghost var live: map<int, int>  // what malloc has handed out, with sizes
    ghost var heap: set<int>       // the cells that malloc manages
    ghost var granted: set<int>    // the cells that sbrk has granted
    ghost var brk: int             // the end of memory

    /** Before the first malloc: nothing is linked, and memory ends somewhere above base. */
    constructor (base: int, ghost brk: int)
      requires NULL < base < brk
      ensures Valid() && live == map[] && heap == {} && granted == {}
    {
      this.base := base;
      ptr, size, freep := map[], map[], NULL;
      l, f, live, heap, granted := [Blk(base, 0)], 0, map[], {}, {};
      this.brk := brk;
    }

    ghost predicate Valid()
      reads this
    {
      && base > NULL && Sorted(l) && l[0] == Blk(base, 0) && f < |l|
      && (if freep == NULL then l == [Blk(base, 0)] && live == map[] else freep == l[f].addr && Links(ptr, size, l))
      && LiveOk(size, l, live, base) && Accounted(l, live, heap)
      && base < brk && (forall x :: x in heap ==> base < x < brk)
      && (forall i :: 0 <= i < |l| ==> l[i].addr != NULL)
    }

    /** free: put a live block back, joined with its neighbours. */
    method Free(bp: int)
      requires Valid() && freep != NULL && bp in live && bp != NULL
      modifies this`ptr, this`size, this`freep, this`l, this`f, this`live
      ensures Valid() && freep != NULL && live == old(live) - {bp}
      ensures exists k :: InGap(old(l), k, Blk(bp, old(live)[bp])) && l == Give(old(l), k, Blk(bp, old(live)[bp]))
    {
      hide Give, LiveOk, Accounted, Sorted, Links;
      ghost var b := Blk(bp, live[bp]);
      LiveBlock(size, l, live, base, bp);
      ghost var k := FindGap(l, b, 0);
      ghost var i: nat := f;
      var p := freep;
      LinkedAt(ptr, size, l, i);
      while !(bp > p && bp < ptr[p])
        invariant Valid() && freep != NULL && l == old(l) && live == old(live)
        invariant i < |l| && p == l[i].addr && Linked(ptr, size, l, i)
        decreases Distance(|l|, i, k)
      {
        GapTest(l, k, b, i);
        if p >= ptr[p] && (bp > p || bp < ptr[p]) {
          break;
        }
        p := ptr[p];
        i := if i + 1 < |l| then i + 1 else 0;
        LinkedAt(ptr, size, l, i);
      }
      GapTest(l, k, b, i);
      assert i == k;
      Join(bp, p, k);
    }

    /** The part of free after its search: bp goes behind p. */
    method Join(bp: int, p: int, ghost k: nat)
      requires Valid() && freep != NULL && bp in live && bp != NULL
      requires k < |l| && p == l[k].addr && InGap(l, k, Blk(bp, live[bp]))
      modifies this`ptr, this`size, this`freep, this`l, this`f, this`live
      ensures Valid() && freep != NULL && live == old(live) - {bp}
      ensures l == Give(old(l), k, Blk(bp, old(live)[bp]))
    {
      hide Give, LiveOk, Accounted, Links, Sorted, Joined;
      ghost var b := Blk(bp, live[bp]);
      ghost var ptr0, size0 := ptr, size;
      LiveBlock(size, l, live, base, bp);
      Relink(bp, p, k, b);
      JoinOk(ptr0, size0, ptr, size, l, live, heap, base, k, b);
      l, f, live := Give(l, k, b), k, live - {bp};
    }

    /** The header updates of free. */
    method Relink(bp: int, p: int, ghost k: nat, ghost b: Blk)
      requires Sorted(l) && Links(ptr, size, l) && InGap(l, k, b) && p == l[k].addr
      requires b.addr == bp && bp in size && size[bp] == b.size
      modifies this`ptr, this`size, this`freep
      ensures Joined(old(ptr), old(size), ptr, size, l, k, b) && freep == p
    {
      hide Links, Sorted;
      LinkedAt(ptr, size, l, k);
      if k + 1 < |l| {
        LinkedAt(ptr, size, l, k + 1);
      }
      var next := ptr[p];
      WrapsBelow(l, k, b);
      if bp + size[bp] == next {
        size, ptr := size[bp := size[bp] + size[next]], ptr[bp := ptr[next]];
      } else {
        size, ptr := size[bp := size[bp]], ptr[bp := next];
      }
      if p + size[p] == bp {
        size, ptr := size[p := size[p] + size[bp]], ptr[p := ptr[bp]];
      } else {
        ptr := ptr[p := bp];
      }
      freep := p;
    }

    /** morecore: ask sbrk for at least nu units and free them. `grant` is where sbrk puts them, in
        units, or -1 if it fails. */
    method Morecore(nu: nat, grant: int) returns (r: int)
      requires Valid() && freep != NULL && nu > 0 && (grant == -1 || grant >= brk) && grant != NULL
      modifies this
      ensures Valid() && freep != NULL && live == old(live)
      ensures r == NULL <==> grant == -1
      ensures r == NULL ==>
                heap == old(heap) && l == old(l) && freep == old(freep) && ptr == old(ptr) && size == old(size) &&
                    f == old(f)
      ensures r != NULL ==> r == freep && exists j :: 0 <= j < |l| && l[j].size >= nu
      ensures r != NULL ==> heap == Grant(old(heap), grant, nu)
      ensures granted == old(granted) + if r == NULL then {} else Granted(grant, Asked(nu))
    {
      hide Give, LiveOk, Accounted, Links, Sorted;
      var n := nu;
      if n < CORE {
        n := CORE;
      }
      if grant == -1 {
        return NULL;
      }
      GrantLive(ptr, size, l, live, heap, base, brk, grant, n);
      size := size[grant := n];
      live := live[grant := n];
      heap := heap + Cells(Blk(grant, n));
      granted := granted + Granted(grant, n);
      brk := grant + n;
      ghost var l0 := l;
      Free(grant);
      ghost var k :| InGap(l0, k, Blk(grant, n)) && l == Give(l0, k, Blk(grant, n));
      GrantedBig(l0, k, Blk(grant, n));
      r := freep;
    }

    /** malloc: a block of enough units, NULL if the list has none and sbrk fails. The pointer that
        the program gets is one unit further, behind the header. */
    method Malloc(nbytes: nat, grant: int) returns (r: int)
      requires Valid() && (grant == -1 || grant >= brk) && grant != NULL
      modifies this
      ensures Valid()
      ensures r != NULL ==> r !in old(live) && live == old(live)[r := Units(nbytes)]
      ensures r == NULL ==> grant == -1 && live == old(live) && heap == old(heap) && forall i :: 0 <= i < |l| ==>
                l[i].size < Units(nbytes)
      ensures heap == old(heap) || (grant != -1 && heap == Grant(old(heap), grant, Units(nbytes)))
      ensures heap != old(heap) ==> forall i :: 0 <= i < |old(l)| ==> old(l)[i].size < Units(nbytes)
      ensures old(granted) == old(heap) ==> (granted == heap <==> heap == old(heap) || Askable(Units(nbytes)))
    {
      hide LiveOk, Accounted, Links, Sorted, TakeFrom, Grant, Around, Granted, Asked, Askable;
      var nunits := (nbytes + UNIT - 1) / UNIT + 1;
      var prevp := freep;
      if prevp == NULL {
        Init();
        prevp := freep;
      }
      StepAround(ptr, size, l, f, 0);
      var p := ptr[prevp];
      ghost var c := 0;
      ghost var grown := false;
      while true
        invariant Valid() && freep != NULL && live == old(live) && c < |l|
        invariant prevp == l[Around(|l|, f, c)].addr && p == l[Around(|l|, f, c + 1)].addr
        invariant forall j :: 1 <= j <= c ==> l[Around(|l|, f, j)].size < nunits
        invariant grown ==> exists i :: 0 <= i < |l| && l[i].size >= nunits
        invariant !grown ==> heap == old(heap) && brk == old(brk) && l == old(l) && granted == old(granted)
        invariant grown ==> granted == old(granted) + Granted(grant, Asked(nunits))
        invariant grown ==> heap != old(heap)
        invariant grown && old(granted) == old(heap) ==> (granted == heap <==> Askable(nunits))
        invariant grown ==> forall i :: 0 <= i < |old(l)| ==> old(l)[i].size < nunits
        invariant grown ==> grant != -1 && heap == Grant(old(heap), grant, nunits)
        decreases if grown then 0 else 1, |l| - c
      {
        StepAround(ptr, size, l, f, c);
        if size[p] >= nunits {
          r := Hand(prevp, p, nunits, c);
          return;
        }
        if p == freep {
          OnlyFreep(l, f, c);
          AllScanned(l, f, nunits);
          GrantedIff(heap, brk, grant, nunits);
          p := Morecore(nunits, grant);
          if p == NULL {
            return NULL;
          }
          grown := true;
          c := 0;
        } else {
          NotFreep(l, f, c);
          c := c + 1;
        }
        StepAround(ptr, size, l, f, c);
        prevp := p;
        p := ptr[p];
      }
    }

    /** The first call of malloc makes base a list of its own. */
    method Init()
      requires Valid() && freep == NULL
      modifies this`ptr, this`size, this`freep, this`f
      ensures Valid() && freep == base
    {
      ptr := ptr[base := base];
      size := size[base := 0];
      freep, f := base, 0;
      assert Linked(ptr, size, l, 0);
    }

    /** The part of malloc that takes nunits from the block p after prevp. */
    method Hand(prevp: int, p: int, nunits: int, ghost c: nat) returns (r: int)
      requires Valid() && freep != NULL && nunits > 0 && c < |l|
      requires prevp == l[Around(|l|, f, c)].addr && p == l[Around(|l|, f, c + 1)].addr
      requires l[Around(|l|, f, c + 1)].size >= nunits
      modifies this`ptr, this`size, this`freep, this`l, this`f, this`live
      ensures Valid() && r != NULL && r !in old(live) && live == old(live)[r := nunits]
    {
      hide LiveOk, Accounted, Links, Sorted, TakeFrom, Around;
      ghost var i := Around(|l|, f, c + 1);
      ghost var ptr0, size0 := ptr, size;
      AroundPrev(|l|, f, c);
      BaseEmpty(l, i, nunits);
      Apart(l, 0, i);
      LinkedAt(ptr, size, l, i);
      LinkedAt(ptr, size, l, i - 1);
      r := p;
      if size[p] == nunits {
        ptr := ptr[prevp := ptr[p]];
      } else {
        size := size[p := size[p] - nunits];
        r := p + size[p];
        size := size[r := nunits];
      }
      freep := prevp;
      HandOk(ptr0, size0, ptr, size, l, live, heap, base, i, nunits);
      l, f, live := TakeFrom(l, i, nunits), i - 1, live[r := nunits];
    }
  }

  /** The units that morecore asks for. */
  function Asked(n: nat): nat {
    if n < CORE then CORE else n
  }

  /** What morecore adds for a request of n units. */
  function Grant(heap: set<int>, a: int, n: nat): set<int> {
    heap + Cells(Blk(a, Asked(n)))
  }

  /** sbrk takes an int: the argument in bytes is cut off to 32 bits. */
  function Int32(x: nat): int {
    if x % 0x1_0000_0000 < 0x8000_0000 then x % 0x1_0000_0000 else x % 0x1_0000_0000 - 0x1_0000_0000
  }

  /** What sbrk really adds at a when it is asked for n units; a negative argument adds nothing. */
  function Granted(a: int, n: nat): set<int> {
    var bytes := Int32(UNIT * n);
    if bytes < 0 then {} else Cells(Blk(a, bytes / UNIT))
  }

  predicate Askable(n: nat) {
    UNIT * Asked(n) < 0x8000_0000
  }

  /** malloc gets what it asked for if and only if the bytes fit an int. */
  lemma GrantedIff(heap: set<int>, brk: int, a: int, n: nat)
    requires (forall x :: x in heap ==> x < brk) && n > 0
    ensures a >= brk ==> (heap + Granted(a, Asked(n)) == Grant(heap, a, n) <==> Askable(n)) && Grant(heap, a, n) != heap
  {
    var m := Asked(n);
    var last := a + m - 1;
    assert last in Cells(Blk(a, m));
    if Askable(n) {
      assert Int32(UNIT * m) == UNIT * m;
    } else {
      Short(m);
      assert last !in Granted(a, m);
    }
  }

  lemma Short(m: nat)
    requires UNIT * m >= 0x8000_0000
    ensures Int32(UNIT * m) < 0 || Int32(UNIT * m) / UNIT < m
  {
  }

  /** A request of 0x7FFF_FFE1 bytes makes the argument negative: nothing is granted. */
  lemma HugeRequestGetsNothing(a: int)
    ensures Units(0x7FFF_FFE1) == 0x800_0000 && Granted(a, Asked(Units(0x7FFF_FFE1))) == {}
  {
  }

  function Units(nbytes: nat): (r: nat)
    ensures r >= 1 && UNIT * (r - 1) >= nbytes && (r > 1 ==> UNIT * (r - 2) < nbytes)
  {
    (nbytes + UNIT - 1) / UNIT + 1
  }

  /** j steps around the circle from f. */
  function Around(n: nat, f: nat, j: nat): (r: nat)
    requires f < n && j <= n
    ensures r < n
  {
    if f + j < n then f + j else f + j - n
  }

  /** All that free must keep. */
  lemma JoinOk(ptr: map<int, int>, size: map<int, int>, ptr': map<int, int>, size': map<int, int>, l: seq<Blk>,
               live: map<int, int>, heap: set<int>, base: int, k: nat, b: Blk)
    requires Sorted(l) && l[0] == Blk(base, 0) && InGap(l, k, b) && Links(ptr, size, l)
    requires Joined(ptr, size, ptr', size', l, k, b)
    requires LiveOk(size, l, live, base) && Accounted(l, live, heap) && b.addr in live && live[b.addr] == b.size
    requires b.addr != NULL && forall i :: 0 <= i < |l| ==> l[i].addr != NULL
    ensures var g := Give(l, k, b);
            && Sorted(g) && g[0] == Blk(base, 0) && k < |g| && g[k].addr == l[k].addr && Links(ptr', size', g)
            && LiveOk(size', g, live - {b.addr}, base) && Accounted(g, live - {b.addr}, heap)
            && forall i :: 0 <= i < |g| ==> g[i].addr != NULL
  {
    hide Give, LiveOk, Accounted, Links, Sorted;
    JoinedLinks(ptr, size, ptr', size', l, k, b);
    FreedLive(size, size', l, live, base, k, b);
    FreedAccountedIn(size, l, live, heap, base, k, b);
    GiveSorted(l, k, b);
    BaseStays(l, k, b);
    GiveAt(l, k, b, k);
    GiveAddresses(l, k, b);
  }

  lemma LiveBlock(size: map<int, int>, l: seq<Blk>, live: map<int, int>, base: int, a: int)
    requires LiveOk(size, l, live, base) && a in live
    ensures live[a] > 0 && base < a && a in size && size[a] == live[a]
    ensures forall i :: 0 <= i < |l| ==> Disjoint(Blk(a, live[a]), l[i])
  {
  }

  lemma LinkedAt(ptr: map<int, int>, size: map<int, int>, l: seq<Blk>, i: nat)
    requires Links(ptr, size, l) && i < |l|
    ensures Linked(ptr, size, l, i)
  {
  }

  /** base is below everything, so a block never touches it from below. */
  lemma WrapsBelow(l: seq<Blk>, k: nat, b: Blk)
    requires Sorted(l) && InGap(l, k, b)
    ensures End(b) == Next(l, k) <==> JoinsUp(l, k, b)
    ensures b.addr != l[k].addr && (k + 1 < |l| ==> b.addr != l[k + 1].addr)
  {
    if k > 0 {
      Apart(l, 0, k);
    }
  }

  lemma FreedAccountedIn(size: map<int, int>, l: seq<Blk>, live: map<int, int>, heap: set<int>, base: int, k: nat,
                         b: Blk)
    requires Sorted(l) && InGap(l, k, b) && Accounted(l, live, heap) && b.addr in live && live[b.addr] == b.size
    requires LiveOk(size, l, live, base)
    ensures Accounted(Give(l, k, b), live - {b.addr}, heap)
  {
    FreedAccounted(l, live, heap, k, b);
  }

  /** The blocks of the new list start where old ones did, or where b does. */
  lemma GiveAddresses(l: seq<Blk>, k: nat, b: Blk)
    requires InGap(l, k, b) && b.addr != NULL && forall i :: 0 <= i < |l| ==> l[i].addr != NULL
    ensures forall i :: 0 <= i < |Give(l, k, b)| ==> Give(l, k, b)[i].addr != NULL
  {
    hide Give;
    var g, m, d := Give(l, k, b), Middle(l, k, b), After(l, k, b);
    GiveAt(l, k, b, k);
    forall i | 0 <= i < |g|
      ensures g[i].addr != NULL
    {
      if i < k {
        GiveAt(l, k, b, i);
      } else if i > m {
        GiveAt(l, k, b, d + (i - m - 1));
      }
    }
  }

  /** Memory beyond the break can be handed out. */
  lemma GrantLive(ptr: map<int, int>, size: map<int, int>, l: seq<Blk>, live: map<int, int>, heap: set<int>,
                  base: int, brk: int, a: int, n: int)
    requires Sorted(l) && l[0] == Blk(base, 0) && LiveOk(size, l, live, base) && Accounted(l, live, heap)
    requires Links(ptr, size, l)
    requires n > 0 && a >= brk > base && forall x :: x in heap ==> base < x < brk
    ensures a !in live && LiveOk(size[a := n], l, live[a := n], base)
    ensures Accounted(l, live[a := n], heap + Cells(Blk(a, n)))
    ensures Links(ptr, size[a := n], l)
  {
    hide Accounted, Links, LiveOk, Sorted;
    forall i | 0 <= i < |l|
      ensures End(l[i]) <= a && l[i].addr != a
    {
      FreeBelow(l, live, heap, base, brk, i);
    }
    forall c | c in live
      ensures live[c] > 0 && c + live[c] <= a
    {
      LiveBlock(size, l, live, base, c);
      LiveBelow(l, live, heap, brk, c);
    }
    GrantAccounted(l, live, heap, a, n);
    GrantLinks(ptr, size, l, a, n);
    GrantApart(size, l, live, base, a, n);
  }

  lemma GrantApart(size: map<int, int>, l: seq<Blk>, live: map<int, int>, base: int, a: int, n: int)
    requires LiveOk(size, l, live, base) && n > 0 && base < a
    requires (forall i :: 0 <= i < |l| ==> End(l[i]) <= a) && forall c :: c in live ==> c + live[c] <= a
    ensures LiveOk(size[a := n], l, live[a := n], base)
  {
  }

  lemma FreeBelow(l: seq<Blk>, live: map<int, int>, heap: set<int>, base: int, brk: int, i: nat)
    requires Sorted(l) && l[0] == Blk(base, 0) && Accounted(l, live, heap) && base < brk && i < |l|
    requires forall x :: x in heap ==> base < x < brk
    ensures End(l[i]) <= brk && l[i].addr < brk
  {
    if i > 0 {
      assert Covers(l[i], End(l[i]) - 1);
      assert FreeCell(l, End(l[i]) - 1);
    }
  }

  lemma LiveBelow(l: seq<Blk>, live: map<int, int>, heap: set<int>, brk: int, c: int)
    requires Accounted(l, live, heap) && c in live && live[c] > 0 && forall x :: x in heap ==> x < brk
    ensures c + live[c] <= brk
  {
    assert Covers(Blk(c, live[c]), c + live[c] - 1);
    assert LiveCell(live, c + live[c] - 1);
  }

  lemma GrantLinks(ptr: map<int, int>, size: map<int, int>, l: seq<Blk>, a: int, n: int)
    requires Links(ptr, size, l) && forall i :: 0 <= i < |l| ==> l[i].addr != a
    ensures Links(ptr, size[a := n], l)
  {
    var size' := size[a := n];
    forall i | 0 <= i < |l|
      ensures Linked(ptr, size', l, i)
    {
      assert Linked(ptr, size, l, i);
    }
  }

  lemma GrantAccounted(l: seq<Blk>, live: map<int, int>, heap: set<int>, a: int, n: int)
    requires Accounted(l, live, heap) && a !in live
    ensures Accounted(l, live[a := n], heap + Cells(Blk(a, n)))
  {
    forall x
      ensures x in heap + Cells(Blk(a, n)) <==> FreeCell(l, x) || LiveCell(live[a := n], x)
    {
      LiveWithout(live[a := n], a, x);
      assert live[a := n] - {a} == live;
    }
  }

  lemma GrantedBig(l: seq<Blk>, k: nat, b: Blk)
    requires Sorted(l) && InGap(l, k, b)
    ensures exists j :: 0 <= j < |Give(l, k, b)| && Give(l, k, b)[j].size >= b.size
  {
    hide Give;
    GiveAt(l, k, b, k);
    assert Give(l, k, b)[Middle(l, k, b)].size >= b.size;
  }

  /** One step around the circle from the block c steps after freep. */
  lemma StepAround(ptr: map<int, int>, size: map<int, int>, l: seq<Blk>, f: nat, c: nat)
    requires Links(ptr, size, l) && f < |l| && c < |l|
    ensures var p, q := l[Around(|l|, f, c)], l[Around(|l|, f, c + 1)];
            && p.addr in ptr && ptr[p.addr] == q.addr && q.addr in size && size[q.addr] == q.size
            && Around(|l|, f, 0) == f
  {
    assert Linked(ptr, size, l, Around(|l|, f, c)) && Linked(ptr, size, l, Around(|l|, f, c + 1));
  }

  lemma NotFreep(l: seq<Blk>, f: nat, c: nat)
    requires f < |l| && c < |l| && l[Around(|l|, f, c + 1)].addr != l[f].addr
    ensures c + 1 < |l|
  {
  }

  lemma AroundPrev(n: nat, f: nat, c: nat)
    requires f < n && c < n
    ensures var i := Around(n, f, c + 1); Around(n, f, c) == if i == 0 then n - 1 else i - 1
  {
  }

  /** Coming back to freep means having seen every other block. */
  lemma OnlyFreep(l: seq<Blk>, f: nat, c: nat)
    requires Sorted(l) && f < |l| && c < |l| && l[Around(|l|, f, c + 1)].addr == l[f].addr
    ensures c + 1 == |l| && Around(|l|, f, c + 1) == f
  {
    var i := Around(|l|, f, c + 1);
    if i < f {
      Apart(l, i, f);
    } else if f < i {
      Apart(l, f, i);
    }
  }

  lemma AllScanned(l: seq<Blk>, f: nat, n: int)
    requires f < |l| && forall j :: 1 <= j < |l| ==> l[Around(|l|, f, j)].size < n
    requires l[f].size < n
    ensures forall i :: 0 <= i < |l| ==> l[i].size < n
  {
    forall i | 0 <= i < |l|
      ensures l[i].size < n
    {
      var j := if i > f then i - f else i + |l| - f;
      assert i != f ==> Around(|l|, f, j) == i;
    }
  }

  lemma BaseEmpty(l: seq<Blk>, i: nat, n: int)
    requires Sorted(l) && i < |l| && l[i].size >= n > 0
    ensures i > 0
  {
  }

  /** All that malloc must keep. */
  lemma HandOk(ptr: map<int, int>, size: map<int, int>, ptr': map<int, int>, size': map<int, int>, l: seq<Blk>,
               live: map<int, int>, heap: set<int>, base: int, i: nat, n: int)
    requires Sorted(l) && l[0] == Blk(base, 0) && 0 < i < |l| && 0 < n <= l[i].size && Links(ptr, size, l)
    requires LiveOk(size, l, live, base) && Accounted(l, live, heap)
    requires if l[i].size == n then ptr' == ptr[l[i - 1].addr := Next(l, i)] && size' == size
             else ptr' == ptr && size' == size[l[i].addr := l[i].size - n][Part(l, i, n).addr := n]
    requires forall j :: 0 <= j < |l| ==> l[j].addr != NULL
    ensures var t, c := TakeFrom(l, i, n), Part(l, i, n).addr;
            && Sorted(t) && t[0] == Blk(base, 0) && i - 1 < |t| && t[i - 1].addr == l[i - 1].addr &&
                Links(ptr', size', t)
            && c !in live && LiveOk(size', t, live[c := n], base) && Accounted(t, live[c := n], heap)
            && forall j :: 0 <= j < |t| ==> t[j].addr != NULL
  {
    hide LiveOk, Accounted, Links, Sorted;
    TakeSorted(l, i, n);
    TakenLinks(ptr, size, ptr', size', l, i, n);
    SizeAt(ptr, size, l, i);
    TakenLive(size, size', l, live, base, i, n);
    TakenAccounted(l, live, heap, i, n);
  }

  lemma SizeAt(ptr: map<int, int>, size: map<int, int>, l: seq<Blk>, i: nat)
    requires Links(ptr, size, l) && i < |l|
    ensures l[i].addr in size && size[l[i].addr] == l[i].size
  {
    assert Linked(ptr, size, l, i);
  }

  /** A cell that sbrk granted is in exactly one block, free or live; no other cell is in any. */
  lemma OneBlockPerCell(size: map<int, int>, l: seq<Blk>, live: map<int, int>, base: int, heap: set<int>, x: int)
    requires Sorted(l) && LiveOk(size, l, live, base) && Accounted(l, live, heap)
    ensures x in heap <==> FreeCell(l, x) != LiveCell(live, x)
    ensures forall i, j :: 0 <= i < |l| && 0 <= j < |l| && Covers(l[i], x) && Covers(l[j], x) ==> i == j
    ensures forall a, c :: a in live && c in live && Covers(Blk(a, live[a]), x) && Covers(Blk(c, live[c]), x) ==> a == c
  {
    forall i, j | 0 <= i < |l| && 0 <= j < |l| && Covers(l[i], x) && Covers(l[j], x)
      ensures i == j
    {
      if i < j {
        Apart(l, i, j);
      } else if j < i {
        Apart(l, j, i);
      }
    }
    if LiveCell(live, x) {
      var a :| a in live && Covers(Blk(a, live[a]), x);
      forall i | 0 <= i < |l|
        ensures !Covers(l[i], x)
      {
        assert Disjoint(Blk(a, live[a]), l[i]);
      }
    }
  }
}
