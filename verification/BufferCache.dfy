/** The buffer cache (kernel/bio.c): NBUF buffers on a circular doubly linked list kept in
    order of recent use, with reference counts that protect buffers from being recycled. */
module BufferCache {
  import opened Bytes
  import opened Params
  import opened Sets

  const HEAD: nat := NBUF

  datatype Option<T> = None | Some(value: T)

  datatype Buf = Buf(dev: nat, blockno: nat, valid: bool, refcnt: nat, data: Block)

  /** The cache as a value: the buffers and the list, most recently used first. */
  datatype Cache = Cache(buf: seq<Buf>, order: seq<nat>)

  predicate IsOrder(order: seq<nat>) {
    && |order| == NBUF
    && (forall k :: 0 <= k < NBUF ==> order[k] < NBUF)
    && Distinct(order)
  }

  predicate Shape(c: Cache) {
    |c.buf| == NBUF && IsOrder(c.order)
  }

  predicate Caches(b: Buf, blockno: nat) {
    b.dev == ROOTDEV && b.blockno == blockno
  }

  /** No block is cached twice. */
  predicate Unique(buf: seq<Buf>) {
    forall i, j :: 0 <= i < j < |buf| && buf[i].dev == ROOTDEV && buf[j].dev == ROOTDEV ==>
        buf[i].blockno != buf[j].blockno
  }

  /** The first buffer from list position k on that caches the block. */
  function Lookup(buf: seq<Buf>, order: seq<nat>, blockno: nat, k: nat): Option<nat>
    requires |buf| == NBUF && IsOrder(order) && k <= NBUF
    decreases NBUF - k
  {
    if k == NBUF then None
    else if Caches(buf[order[k]], blockno) then Some(order[k])
    else Lookup(buf, order, blockno, k + 1)
  }

  /** The last buffer before list position k that nobody references. */
  function Victim(buf: seq<Buf>, order: seq<nat>, k: nat): Option<nat>
    requires |buf| == NBUF && IsOrder(order) && k <= NBUF
  {
    if k == 0 then None
    else if buf[order[k - 1]].refcnt == 0 then Some(order[k - 1])
    else Victim(buf, order, k - 1)
  }

  /** bget under bcache.lock: which buffer the block gets, if any. */
  function Choose(c: Cache, blockno: nat): Option<nat>
    requires Shape(c)
  {
    var hit := Lookup(c.buf, c.order, blockno, 0);
    if hit.Some? then hit else Victim(c.buf, c.order, NBUF)
  }

  /** What bget leaves in the chosen buffer. */
  function Claimed(b: Buf, blockno: nat): Buf {
    if Caches(b, blockno) then b.(refcnt := b.refcnt + 1)
    else Buf(ROOTDEV, blockno, false, 1, b.data)
  }

  function Claim(c: Cache, i: nat, blockno: nat): (r: Cache)
    requires Shape(c) && i < NBUF
    ensures Shape(r)
  {
    c.(buf := c.buf[i := Claimed(c.buf[i], blockno)])
  }

  /** bread's second half: read the block in unless the buffer already holds it. */
  function Fill(c: Cache, i: nat, disk: seq<Block>): (r: Cache)
    requires Shape(c) && i < NBUF && c.buf[i].blockno < |disk|
    ensures Shape(r)
  {
    var b := c.buf[i];
    if b.valid then c else c.(buf := c.buf[i := b.(data := disk[b.blockno], valid := true)])
  }

  function Pin(c: Cache, i: nat): (r: Cache)
    requires Shape(c) && i < NBUF
    ensures Shape(r)
  {
    c.(buf := c.buf[i := c.buf[i].(refcnt := c.buf[i].refcnt + 1)])
  }

  function Unpin(c: Cache, i: nat): (r: Cache)
    requires Shape(c) && i < NBUF && c.buf[i].refcnt > 0
    ensures Shape(r)
  {
    c.(buf := c.buf[i := c.buf[i].(refcnt := c.buf[i].refcnt - 1)])
  }

  /** The list with buffer i moved to its front. */
  function ToFront(order: seq<nat>, i: nat): (r: seq<nat>)
    requires IsOrder(order) && i < NBUF
    ensures IsOrder(r) && r[0] == i
  {
    DistinctBelowIsAll(order, NBUF, i);
    var k := Position(order, i);
    [i] + order[..k] + order[k + 1..]
  }

  /** brelse under bcache.lock. */
  function Drop(c: Cache, i: nat): (r: Cache)
    requires Shape(c) && i < NBUF && c.buf[i].refcnt > 0
    ensures Shape(r)
  {
    var b := c.buf[i].(refcnt := c.buf[i].refcnt - 1);
    Cache(c.buf[i := b], if b.refcnt == 0 then ToFront(c.order, i) else c.order)
  }

  function Position(order: seq<nat>, i: nat): (k: nat)
    requires i in order
    ensures k < |order| && order[k] == i
  {
    if order[0] == i then 0 else 1 + Position(order[1..], i)
  }

  /** The k-th node of the circular list that starts at the head: order[k], or the head
      itself just before the first and just after the last buffer. */
  function Node(order: seq<nat>, k: int): nat {
    if 0 <= k < |order| then order[k] else HEAD
  }

  /** The next and prev links of all nodes spell out the list `order`. */
  ghost predicate Linked(next: seq<nat>, prev: seq<nat>, order: seq<nat>) {
    && |next| == |prev| == NBUF + 1
    && (forall k :: 0 <= k < |order| ==> order[k] < NBUF)
    && Distinct(order)
    && (forall k :: -1 <= k < |order| ==> next[Node(order, k)] == Node(order, k + 1))
    && (forall k :: 0 <= k <= |order| ==> prev[Node(order, k)] == Node(order, k - 1))
  }

  lemma FrontIs(order: seq<nat>, i: nat)
    requires IsOrder(order) && i < NBUF && i in order
    ensures var k := Position(order, i); [i] + (order[..k] + order[k + 1..]) == ToFront(order, i)
  {
    hide Distinct;
  }

  /** Linking node i in right after the head. */
  lemma LinkFront(next: seq<nat>, prev: seq<nat>, order: seq<nat>, i: nat)
    requires Linked(next, prev, order) && i < NBUF && i !in order
    ensures var first := next[HEAD];
            && first <= NBUF
            && Linked(next[i := first][HEAD := i], prev[i := HEAD][first := i], [i] + order)
  {
    var first := next[HEAD];
    assert Node(order, -1) == HEAD;
    assert first == Node(order, 0);
    var next', prev', order' := next[i := first][HEAD := i], prev[i := HEAD][first := i], [i] + order;
    forall k | -1 <= k < |order'|
      ensures next'[Node(order', k)] == Node(order', k + 1)
    {
      if k > 0 { assert Node(order', k) == Node(order, k - 1); }
      assert Node(order', k + 1) == if k == -1 then i else Node(order, k);
    }
    forall k | 0 <= k <= |order'|
      ensures prev'[Node(order', k)] == Node(order', k - 1)
    {
      if k > 0 { assert Node(order', k) == Node(order, k - 1); }
      if k > 1 { assert Node(order', k - 1) == Node(order, k - 2); }
    }
  }

  /** No node occurs twice between the head and the head. */
  lemma NodesDiffer(order: seq<nat>, a: int, b: int)
    requires Distinct(order) && forall k :: 0 <= k < |order| ==> order[k] < NBUF
    requires 0 <= a < b <= |order| || -1 <= a < b < |order|
    ensures Node(order, a) != Node(order, b)
  {
  }

  /** Unlinking the node at position k. */
  lemma Unlink(next: seq<nat>, prev: seq<nat>, order: seq<nat>, k: nat)
    requires Linked(next, prev, order) && k < |order|
    ensures var i := order[k];
            && next[i] <= NBUF && prev[i] <= NBUF
            && Linked(next[prev[i] := next[i]], prev[next[i] := prev[i]], order[..k] + order[k + 1..])
  {
    var i := order[k];
    assert Node(order, k) == i;
    var before, after := Node(order, k - 1), Node(order, k + 1);
    assert next[i] == after && prev[i] == before;
    var order' := order[..k] + order[k + 1..];
    forall j | -1 <= j < |order'|
      ensures next[before := after][Node(order', j)] == Node(order', j + 1)
    {
      UnlinkNext(next, prev, order, k, j);
    }
    forall j | 0 <= j <= |order'|
      ensures prev[after := before][Node(order', j)] == Node(order', j - 1)
    {
      UnlinkPrev(next, prev, order, k, j);
    }
  }

  lemma UnlinkNext(next: seq<nat>, prev: seq<nat>, order: seq<nat>, k: nat, j: int)
    requires Linked(next, prev, order) && k < |order| && -1 <= j < |order| - 1
    ensures var order' := order[..k] + order[k + 1..];
            next[Node(order, k - 1) := Node(order, k + 1)][Node(order', j)] == Node(order', j + 1)
  {
    var order' := order[..k] + order[k + 1..];
    assert Node(order', j + 1) == if j + 1 < k then Node(order, j + 1) else Node(order, j + 2);
    if j == k - 1 {
      assert Node(order', j) == Node(order, k - 1);
    } else {
      var m := if j < k then j else j + 1;
      assert Node(order', j) == Node(order, m);
      if m < k - 1 { NodesDiffer(order, m, k - 1); } else { NodesDiffer(order, k - 1, m); }
      assert next[Node(order, m)] == Node(order, m + 1);
    }
  }

  lemma UnlinkPrev(next: seq<nat>, prev: seq<nat>, order: seq<nat>, k: nat, j: int)
    requires Linked(next, prev, order) && k < |order| && 0 <= j <= |order| - 1
    ensures var order' := order[..k] + order[k + 1..];
            prev[Node(order, k + 1) := Node(order, k - 1)][Node(order', j)] == Node(order', j - 1)
  {
    var order' := order[..k] + order[k + 1..];
    assert Node(order', j - 1) == if j - 1 < k then Node(order, j - 1) else Node(order, j);
    if j == k {
      assert Node(order', j) == Node(order, k + 1);
    } else {
      var m := if j < k then j else j + 1;
      assert Node(order', j) == Node(order, m);
      if m < k + 1 { NodesDiffer(order, m, k + 1); } else { NodesDiffer(order, k + 1, m); }
      assert prev[Node(order, m)] == Node(order, m - 1);
    }
  }

  /** Lookup finds the block exactly when some buffer caches it. */
  lemma {:induction false} LookupFinds(buf: seq<Buf>, order: seq<nat>, blockno: nat, k: nat)
    requires |buf| == NBUF && IsOrder(order) && k <= NBUF
    ensures var r := Lookup(buf, order, blockno, k);
            match r
            case Some(i) => i < NBUF && Caches(buf[i], blockno)
            case None => forall j :: k <= j < NBUF ==> !Caches(buf[order[j]], blockno)
    decreases NBUF - k
  {
    if k < NBUF && !Caches(buf[order[k]], blockno) {
      LookupFinds(buf, order, blockno, k + 1);
    }
  }

  /** The victim is unreferenced, and every buffer used less recently is referenced. */
  lemma {:induction false} VictimIsLeastRecent(buf: seq<Buf>, order: seq<nat>, k: nat)
    requires |buf| == NBUF && IsOrder(order) && k <= NBUF
    ensures match Victim(buf, order, k)
            case Some(i) => exists j :: 0 <= j < k && order[j] == i && buf[i].refcnt == 0
                                        && forall m :: j < m < k ==> buf[order[m]].refcnt > 0
            case None => forall j :: 0 <= j < k ==> buf[order[j]].refcnt > 0
  {
    if k > 0 {
      if buf[order[k - 1]].refcnt == 0 {
        assert order[k - 1] == Victim(buf, order, k).value;
      } else {
        VictimIsLeastRecent(buf, order, k - 1);
      }
    }
  }

  /** bget hands out the buffer that caches the block if there is one, and otherwise an
      unreferenced buffer; it fails exactly when neither exists. */
  lemma ChooseSpec(c: Cache, blockno: nat)
    requires Shape(c)
    ensures match Choose(c, blockno)
            case Some(i) =>
              && i < NBUF
              && (Caches(c.buf[i], blockno) || (c.buf[i].refcnt == 0 && forall j :: 0 <= j < NBUF ==>
                  !Caches(c.buf[j], blockno)))
            case None => forall j :: 0 <= j < NBUF ==> c.buf[j].refcnt > 0 && !Caches(c.buf[j], blockno)
  {
    LookupFinds(c.buf, c.order, blockno, 0);
    VictimIsLeastRecent(c.buf, c.order, NBUF);
    if Lookup(c.buf, c.order, blockno, 0).None? {
      forall j | 0 <= j < NBUF
        ensures !Caches(c.buf[j], blockno)
        ensures Victim(c.buf, c.order, NBUF).None? ==> c.buf[j].refcnt > 0
      {
        DistinctBelowIsAll(c.order, NBUF, j);
        var k := Position(c.order, j);
      }
    }
  }

  /** Claiming the chosen buffer keeps every block cached at most once. */
  lemma ClaimKeepsUnique(c: Cache, blockno: nat)
    requires Shape(c) && Unique(c.buf) && Choose(c, blockno).Some?
    ensures Choose(c, blockno).value < NBUF
    ensures Unique(Claim(c, Choose(c, blockno).value, blockno).buf)
  {
    ChooseSpec(c, blockno);
  }

  class Bcache {
    var disk: seq<Block>
    var buf: seq<Buf>
    var next: seq<nat>
    var prev: seq<nat>
    ghost var order: seq<nat>
    /** The disk after each block write so far, the initial disk first. */
    ghost var history: seq<seq<Block>>

    ghost predicate Valid()
      reads this
    {
      && |buf| == NBUF
      && |order| == NBUF && Linked(next, prev, order)
      && (forall i :: 0 <= i < NBUF && buf[i].dev == ROOTDEV ==> buf[i].blockno < |disk|)
    }

    ghost function View(): Cache
      reads this
    {
      Cache(buf, order)
    }

    /** binit: an empty cache over the disk d. */
    constructor (d: seq<Block>)
      ensures Valid() && disk == d && history == [d]
      ensures forall i :: 0 <= i < NBUF ==> buf[i] == Buf(0, 0, false, 0, ZeroBlock())
    {
      disk := d;
      history := [d];
      buf := seq(NBUF, i => Buf(0, 0, false, 0, ZeroBlock()));
      next := seq(NBUF + 1, i => HEAD);
      prev := seq(NBUF + 1, i => HEAD);
      order := [];
      new;
      var b := 0;
      while b < NBUF
        invariant 0 <= b <= NBUF && Linked(next, prev, order) && |order| == b
        invariant forall k :: 0 <= k < b ==> order[k] < b
        invariant |buf| == NBUF && forall i :: 0 <= i < NBUF ==> buf[i] == Buf(0, 0, false, 0, ZeroBlock())
        invariant disk == d && history == [d]
      {
        InsertFront(b);
        b := b + 1;
      }
    }

    /** Link buffer b in right after the list head. */
    method InsertFront(b: nat)
      requires Linked(next, prev, order) && b < NBUF && b !in order
      modifies this`next, this`prev, this`order
      ensures Linked(next, prev, order) && order == [b] + old(order)
    {
      LinkFront(next, prev, order, b);
      next := next[b := next[HEAD]];
      prev := prev[b := HEAD];
      prev := prev[next[HEAD] := b];
      next := next[HEAD := b];
      order := [b] + order;
    }

    /** Take buffer i, at position k, out of the list. */
    method Remove(i: nat, ghost k: nat)
      requires Linked(next, prev, order) && k < |order| && order[k] == i
      modifies this`next, this`prev, this`order
      ensures Linked(next, prev, order) && order == old(order)[..k] + old(order)[k + 1..]
      ensures i !in order
    {
      Unlink(next, prev, order, k);
      prev := prev[next[i] := prev[i]];
      next := next[prev[i] := next[i]];
      order := order[..k] + order[k + 1..];
    }

    method MoveToFront(i: nat)
      requires Linked(next, prev, order) && |order| == NBUF && i < NBUF
      modifies this`next, this`prev, this`order
      ensures Linked(next, prev, order) && order == ToFront(old(order), i)
    {
      assert IsOrder(order);
      hide Linked, ToFront;
      DistinctBelowIsAll(order, NBUF, i);
      ghost var was := order;
      ghost var k := Position(order, i);
      Remove(i, k);
      InsertFront(i);
      FrontIs(was, i);
    }

    /** Find the block in the cache or recycle the least recently used unreferenced buffer.
        None is the panic "bget: no buffers". */
    method Bget(blockno: nat) returns (r: Option<nat>)
      requires Valid() && blockno < |disk|
      modifies this`buf
      ensures Valid()
      ensures r == old(Choose(View(), blockno))
      ensures r.None? ==> View() == old(View())
      ensures r.Some? ==> r.value < NBUF && View() == Claim(old(View()), r.value, blockno)
    {
      var b := next[HEAD];
      ghost var k := 0;
      assert Node(order, -1) == HEAD && b == Node(order, 0);
      while b != HEAD
        invariant 0 <= k <= NBUF && b == Node(order, k)
        invariant Lookup(buf, order, blockno, 0) == Lookup(buf, order, blockno, k)
        decreases NBUF - k
      {
        assert b == order[k];
        if buf[b].dev == ROOTDEV && buf[b].blockno == blockno {
          buf := buf[b := buf[b].(refcnt := buf[b].refcnt + 1)];
          return Some(b);
        }
        assert next[Node(order, k)] == Node(order, k + 1);
        b := next[b];
        k := k + 1;
      }
      assert k == NBUF;
      LookupFinds(buf, order, blockno, 0);
      b := prev[HEAD];
      assert Node(order, NBUF) == HEAD && b == Node(order, NBUF - 1);
      while b != HEAD
        invariant 0 <= k <= NBUF && b == Node(order, k - 1)
        invariant Victim(buf, order, NBUF) == Victim(buf, order, k)
        decreases k
      {
        assert b == order[k - 1];
        if buf[b].refcnt == 0 {
          assert !Caches(buf[b], blockno);
          buf := buf[b := Buf(ROOTDEV, blockno, false, 1, buf[b].data)];
          return Some(b);
        }
        assert prev[Node(order, k - 1)] == Node(order, k - 2);
        b := prev[b];
        k := k - 1;
      }
      return None;
    }

    /** Return the buffer of a block with the block's contents in it. */
    method Bread(blockno: nat) returns (r: Option<nat>)
      requires Valid() && blockno < |disk|
      modifies this`buf
      ensures Valid()
      ensures r == old(Choose(View(), blockno))
      ensures r.None? ==> View() == old(View())
      ensures r.Some? ==> r.value < NBUF && View() == Fill(Claim(old(View()), r.value, blockno), r.value, disk)
    {
      r := Bget(blockno);
      if r.Some? && !buf[r.value].valid {
        buf := buf[r.value := buf[r.value].(data := disk[buf[r.value].blockno], valid := true)];
      }
    }

    /** Write the buffer's contents to its block. */
    method Bwrite(i: nat)
      requires Valid() && i < NBUF && buf[i].dev == ROOTDEV
      modifies this`disk, this`history
      ensures Valid()
      ensures disk == old(disk)[buf[i].blockno := buf[i].data]
      ensures history == old(history) + [disk]
    {
      disk := disk[buf[i].blockno := buf[i].data];
      history := history + [disk];
    }

    /** Drop a reference; the last one moves the buffer to the front of the list. */
    method Brelse(i: nat)
      requires Valid() && i < NBUF && buf[i].refcnt > 0
      modifies this`buf, this`next, this`prev, this`order
      ensures Valid()
      ensures View() == Drop(old(View()), i)
    {
      buf := buf[i := buf[i].(refcnt := buf[i].refcnt - 1)];
      if buf[i].refcnt == 0 {
        MoveToFront(i);
      }
    }

    method Bpin(i: nat)
      requires Valid() && i < NBUF
      modifies this`buf
      ensures Valid()
      ensures View() == Pin(old(View()), i)
    {
      buf := buf[i := buf[i].(refcnt := buf[i].refcnt + 1)];
    }

    method Bunpin(i: nat)
      requires Valid() && i < NBUF && buf[i].refcnt > 0
      modifies this`buf
      ensures Valid()
      ensures View() == Unpin(old(View()), i)
    {
      buf := buf[i := buf[i].(refcnt := buf[i].refcnt - 1)];
    }
  }
}
