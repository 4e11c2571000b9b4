/** The free list of the user-level allocator (user/umalloc.c) as a sorted sequence of blocks,
    counted in header-sized units. The first block is the empty `base`, which lies below the heap. */
module FreeList {
  datatype Blk = Blk(addr: int, size: int)

  function End(b: Blk): int {
    b.addr + b.size
  }

  /** Address-ordered, disjoint, and coalesced: between two blocks there is always a gap. */
  ghost predicate Sorted(l: seq<Blk>) {
    && |l| > 0 && l[0].size == 0
    && (forall i :: 1 <= i < |l| ==> l[i].size > 0)
    && (forall i :: 0 <= i < |l| - 1 ==> End(l[i]) < l[i + 1].addr)
  }

  lemma {:induction false} Apart(l: seq<Blk>, i: nat, j: nat)
    requires Sorted(l) && i < j < |l|
    ensures End(l[i]) < l[j].addr && l[i].addr < l[j].addr
    decreases j - i
  {
    if i + 1 < j {
      Apart(l, i, j - 1);
      assert End(l[j - 1]) < l[j - 1 + 1].addr;
    }
  }

  predicate Covers(b: Blk, x: int) {
    b.addr <= x < End(b)
  }

  ghost predicate FreeCell(l: seq<Blk>, x: int) {
    exists i :: 0 <= i < |l| && Covers(l[i], x)
  }

  /** b lies in the gap after block k. */
  predicate InGap(l: seq<Blk>, k: nat, b: Blk) {
    k < |l| && b.size > 0 && End(l[k]) <= b.addr && (k + 1 < |l| ==> End(b) <= l[k + 1].addr) && l[0].addr < b.addr
  }

  // free

  predicate JoinsUp(l: seq<Blk>, k: nat, b: Blk) {
    k + 1 < |l| && End(b) == l[k + 1].addr
  }

  predicate JoinsDown(l: seq<Blk>, k: nat, b: Blk)
    requires k < |l|
  {
    End(l[k]) == b.addr
  }

  /** b, joined with the block above it if they touch. */
  function Upper(l: seq<Blk>, k: nat, b: Blk): Blk {
    if JoinsUp(l, k, b) then Blk(b.addr, b.size + l[k + 1].size) else b
  }

  function Rest(l: seq<Blk>, k: nat, b: Blk): seq<Blk>
    requires k < |l|
  {
    if JoinsUp(l, k, b) then l[k + 2..] else l[k + 1..]
  }

  /** The list after free has put b behind block k. */
  function Give(l: seq<Blk>, k: nat, b: Blk): seq<Blk>
    requires k < |l|
  {
    var u := Upper(l, k, b);
    if JoinsDown(l, k, b) then l[..k] + [Blk(l[k].addr, l[k].size + u.size)] + Rest(l, k, b)
    else l[..k + 1] + [u] + Rest(l, k, b)
  }

  /** base is empty and below the heap, so nothing is ever joined to it. */
  lemma BaseStays(l: seq<Blk>, k: nat, b: Blk)
    requires Sorted(l) && InGap(l, k, b)
    ensures JoinsDown(l, k, b) ==> k > 0
    ensures Give(l, k, b)[0] == l[0]
  {
  }

  lemma GiveSorted(l: seq<Blk>, k: nat, b: Blk)
    requires Sorted(l) && InGap(l, k, b)
    ensures Sorted(Give(l, k, b))
  {
    var g := Give(l, k, b);
    BaseStays(l, k, b);
    forall i | 0 <= i < |g| - 1
      ensures End(g[i]) < g[i + 1].addr
    {
      GivePair(l, k, b, i);
    }
  }

  lemma GivePair(l: seq<Blk>, k: nat, b: Blk, i: nat)
    requires Sorted(l) && InGap(l, k, b) && i < |Give(l, k, b)| - 1
    ensures End(Give(l, k, b)[i]) < Give(l, k, b)[i + 1].addr
  {
    var r := Rest(l, k, b);
    var d := if JoinsUp(l, k, b) then k + 2 else k + 1;
    assert forall j :: 0 <= j < |r| ==> r[j] == l[d + j];
    BaseStays(l, k, b);
  }

  /** free adds exactly the cells of the block it gets. */
  lemma GiveCells(l: seq<Blk>, k: nat, b: Blk, x: int)
    requires Sorted(l) && InGap(l, k, b)
    ensures FreeCell(Give(l, k, b), x) <==> FreeCell(l, x) || Covers(b, x)
  {
    hide Give, Sorted;
    var g := Give(l, k, b);
    if FreeCell(g, x) {
      var i :| 0 <= i < |g| && Covers(g[i], x);
      GivenCell(l, k, b, x, i);
    }
    if FreeCell(l, x) {
      var i :| 0 <= i < |l| && Covers(l[i], x);
      KeptCell(l, k, b, x, i);
    }
    if Covers(b, x) {
      OwnCell(l, k, b, x);
    }
  }

  lemma KeptCell(l: seq<Blk>, k: nat, b: Blk, x: int, i: nat)
    requires Sorted(l) && InGap(l, k, b) && i < |l| && Covers(l[i], x)
    ensures FreeCell(Give(l, k, b), x)
  {
    var g := Give(l, k, b);
    var d := if JoinsUp(l, k, b) then k + 2 else k + 1;
    var m := if JoinsDown(l, k, b) then k else k + 1;
    if i < m {
      assert g[i] == l[i];
    } else if i >= d {
      assert g[m + 1 + (i - d)] == Rest(l, k, b)[i - d] == l[i];
    } else {
      assert Covers(g[m], x);
    }
  }

  lemma OwnCell(l: seq<Blk>, k: nat, b: Blk, x: int)
    requires Sorted(l) && InGap(l, k, b) && Covers(b, x)
    ensures FreeCell(Give(l, k, b), x)
  {
    var g := Give(l, k, b);
    var m := if JoinsDown(l, k, b) then k else k + 1;
    assert Covers(g[m], x);
  }

  lemma GivenCell(l: seq<Blk>, k: nat, b: Blk, x: int, i: nat)
    requires Sorted(l) && InGap(l, k, b) && i < |Give(l, k, b)| && Covers(Give(l, k, b)[i], x)
    ensures FreeCell(l, x) || Covers(b, x)
  {
    var g := Give(l, k, b);
    var d := if JoinsUp(l, k, b) then k + 2 else k + 1;
    var m := if JoinsDown(l, k, b) then k else k + 1;
    if i < m {
      assert Covers(l[i], x);
    } else if i > m {
      assert g[i] == l[d + (i - m - 1)];
      assert Covers(l[d + (i - m - 1)], x);
    } else if !Covers(b, x) {
      if x < b.addr {
        assert Covers(l[k], x);
      } else {
        assert Covers(l[k + 1], x);
      }
    }
  }

  // malloc

  /** The block that malloc hands out of block i: all of it, or its tail. */
  function Part(l: seq<Blk>, i: nat, n: int): Blk
    requires i < |l|
  {
    Blk(l[i].addr + l[i].size - n, n)
  }

  function TakeFrom(l: seq<Blk>, i: nat, n: int): seq<Blk>
    requires i < |l|
  {
    if l[i].size == n then l[..i] + l[i + 1..] else l[i := Blk(l[i].addr, l[i].size - n)]
  }

  lemma TakeSorted(l: seq<Blk>, i: nat, n: int)
    requires Sorted(l) && 0 < i < |l| && 0 < n <= l[i].size
    ensures Sorted(TakeFrom(l, i, n)) && TakeFrom(l, i, n)[0] == l[0]
  {
    var t := TakeFrom(l, i, n);
    if l[i].size == n {
      assert forall j :: 0 <= j < |t| ==> t[j] == if j < i then l[j] else l[j + 1];
      forall j | 0 <= j < |t| - 1
        ensures End(t[j]) < t[j + 1].addr
      {
        if j == i - 1 {
          Apart(l, j, j + 2);
        }
      }
    }
  }

  /** malloc takes exactly the cells of the block it hands out. */
  lemma TakeCells(l: seq<Blk>, i: nat, n: int, x: int)
    requires Sorted(l) && 0 < i < |l| && 0 < n <= l[i].size
    ensures FreeCell(TakeFrom(l, i, n), x) <==> FreeCell(l, x) && !Covers(Part(l, i, n), x)
  {
    hide TakeFrom, Sorted;
    var t := TakeFrom(l, i, n);
    if FreeCell(l, x) && !Covers(Part(l, i, n), x) {
      var j :| 0 <= j < |l| && Covers(l[j], x);
      LeftCell(l, i, n, x, j);
    }
    if FreeCell(t, x) {
      var j :| 0 <= j < |t| && Covers(t[j], x);
      TakenCell(l, i, n, x, j);
    }
  }

  lemma LeftCell(l: seq<Blk>, i: nat, n: int, x: int, j: nat)
    requires Sorted(l) && 0 < i < |l| && 0 < n <= l[i].size && j < |l| && Covers(l[j], x) && !Covers(Part(l, i, n), x)
    ensures FreeCell(TakeFrom(l, i, n), x)
  {
    var t := TakeFrom(l, i, n);
    var j' := if l[i].size == n && j >= i then j - 1 else j;
    assert j != i ==> t[j'] == l[j];
    assert Covers(t[j'], x);
  }

  lemma TakenCell(l: seq<Blk>, i: nat, n: int, x: int, j: nat)
    requires Sorted(l) && 0 < i < |l| && 0 < n <= l[i].size && j < |TakeFrom(l, i, n)|
    requires Covers(TakeFrom(l, i, n)[j], x)
    ensures FreeCell(l, x) && !Covers(Part(l, i, n), x)
  {
    var j' := if l[i].size == n && j >= i then j + 1 else j;
    assert j' != i ==> TakeFrom(l, i, n)[j] == l[j'];
    assert Covers(l[j'], x);
    if j' < i {
      Apart(l, j', i);
    } else if j' > i {
      Apart(l, i, j');
    }
  }
}
