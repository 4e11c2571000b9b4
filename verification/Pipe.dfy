/** Pipes (kernel/pipe.c): a ring of PIPESIZE bytes with 32-bit counters that wrap around. Readers
    and writers interleave byte by byte, as each byte is moved under the pipe's lock. */
module Pipe {
  import opened Bytes
  import opened Sequences

  const PIPESIZE: nat := 512
  const WRAP: nat := 0x1_0000_0000

  datatype Ring = Ring(data: seq<byte>, nread: nat, nwrite: nat)

  predicate Shape(r: Ring) {
    |r.data| == PIPESIZE && r.nread < WRAP && r.nwrite < WRAP
  }

  /** pipewrite's test for a full pipe, in 32-bit arithmetic. */
  predicate Full(r: Ring) {
    r.nwrite == (r.nread + PIPESIZE) % WRAP
  }

  predicate Empty(r: Ring) {
    r.nread == r.nwrite
  }

  function Put(r: Ring, ch: byte): Ring
    requires Shape(r)
  {
    Ring(r.data[r.nwrite % PIPESIZE := ch], r.nread, (r.nwrite + 1) % WRAP)
  }

  function Head(r: Ring): byte
    requires Shape(r)
  {
    r.data[r.nread % PIPESIZE]
  }

  function Get(r: Ring): Ring
    requires Shape(r)
  {
    r.(nread := (r.nread + 1) % WRAP)
  }

  /** The ring holds exactly the bytes q, oldest first. */
  ghost predicate Holds(r: Ring, q: seq<byte>) {
    && Shape(r) && |q| <= PIPESIZE && r.nwrite == (r.nread + |q|) % WRAP
    && forall i :: 0 <= i < |q| ==> r.data[(r.nread + i) % PIPESIZE] == q[i]
  }

  lemma Wrapped(x: nat)
    ensures x % WRAP % PIPESIZE == x % PIPESIZE
  {
    assert x == PIPESIZE * (0x80_0000 * (x / WRAP)) + x % WRAP;
    ModAdd(PIPESIZE, 0x80_0000 * (x / WRAP), x % WRAP);
  }

  /** The tests tell the truth however the counters have wrapped. */
  lemma TestsExact(r: Ring, q: seq<byte>)
    requires Holds(r, q)
    ensures |q| <= PIPESIZE && (Full(r) <==> |q| == PIPESIZE)
    ensures Empty(r) <==> q == []
  {
  }

  lemma PutHolds(r: Ring, q: seq<byte>, ch: byte)
    requires Holds(r, q) && !Full(r)
    ensures Holds(Put(r, ch), q + [ch])
  {
    hide Holds;
    TestsExact(r, q);
    ShapeOf(r, q);
    PutCounter(r, q);
    forall i | 0 <= i < |q + [ch]|
      ensures Put(r, ch).data[(r.nread + i) % PIPESIZE] == (q + [ch])[i]
    {
      PutAt(r, q, ch, i);
    }
    HoldsIf(Put(r, ch), q + [ch]);
  }

  lemma HoldsIf(r: Ring, q: seq<byte>)
    requires Shape(r) && |q| <= PIPESIZE && r.nwrite == (r.nread + |q|) % WRAP
    requires forall i :: 0 <= i < |q| ==> r.data[(r.nread + i) % PIPESIZE] == q[i]
    ensures Holds(r, q)
  {
  }

  lemma PutCounter(r: Ring, q: seq<byte>)
    requires Holds(r, q)
    ensures (r.nwrite + 1) % WRAP == (r.nread + (|q| + 1)) % WRAP
  {
  }

  lemma PutAt(r: Ring, q: seq<byte>, ch: byte, i: nat)
    requires Holds(r, q) && |q| < PIPESIZE && i <= |q|
    ensures Put(r, ch).data[(r.nread + i) % PIPESIZE] == (q + [ch])[i]
  {
    Wrapped(r.nread + |q|);
    if i < |q| {
      SlotsDiffer(PIPESIZE, r.nread, i, |q|);
    }
  }

  lemma GetHolds(r: Ring, q: seq<byte>)
    requires Holds(r, q) && !Empty(r)
    ensures q != [] && Head(r) == q[0] && Holds(Get(r), q[1..])
  {
    hide Holds;
    TestsExact(r, q);
    ShapeOf(r, q);
    GetCounter(r, q);
    var r', q' := Get(r), q[1..];
    forall i | 0 <= i < |q'|
      ensures r'.data[(r'.nread + i) % PIPESIZE] == q'[i]
    {
      GetAt(r, q, i + 1);
    }
    HoldsIf(r', q');
  }

  lemma GetCounter(r: Ring, q: seq<byte>)
    requires Holds(r, q) && q != []
    ensures r.nwrite == ((r.nread + 1) % WRAP + (|q| - 1)) % WRAP && Head(r) == q[0]
  {
    assert r.data[(r.nread + 0) % PIPESIZE] == q[0];
  }

  lemma GetAt(r: Ring, q: seq<byte>, j: nat)
    requires Holds(r, q) && 0 < j < |q|
    ensures r.data[((r.nread + 1) % WRAP + (j - 1)) % PIPESIZE] == q[j]
  {
    assert r.data[(r.nread + j) % PIPESIZE] == q[j];
    if r.nread + 1 == WRAP {
      assert r.nread + j == PIPESIZE * 0x80_0000 + (j - 1);
      ModAdd(PIPESIZE, 0x80_0000, j - 1);
    }
  }

  // every interleaving of readers and writers

  datatype Event = Written(ch: byte) | Taken

  predicate Possible(r: Ring, e: Event) {
    Shape(r) && if e.Written? then !Full(r) else !Empty(r)
  }

  function Do(r: Ring, e: Event): Ring
    requires Possible(r, e)
  {
    if e.Written? then Put(r, e.ch) else Get(r)
  }

  predicate Runs(r: Ring, es: seq<Event>)
    decreases |es|
  {
    es == [] || (Possible(r, es[0]) && Runs(Do(r, es[0]), es[1..]))
  }

  function After(r: Ring, es: seq<Event>): Ring
    requires Runs(r, es)
    decreases |es|
  {
    if es == [] then r else After(Do(r, es[0]), es[1..])
  }

  /** The bytes put in, and the bytes taken out, in order. */
  function In(es: seq<Event>): seq<byte> {
    if es == [] then [] else (if es[0].Written? then [es[0].ch] else []) + In(es[1..])
  }

  function Out(r: Ring, es: seq<Event>): seq<byte>
    requires Runs(r, es)
    decreases |es|
  {
    if es == [] then [] else (if es[0].Taken? then [Head(r)] else []) + Out(Do(r, es[0]), es[1..])
  }

  /** What came out of a ring that held q is a prefix of q and what went in; it holds the rest. */
  ghost predicate Served(r: Ring, q: seq<byte>, es: seq<Event>) {
    && Runs(r, es) && Out(r, es) <= q + In(es)
    && Holds(After(r, es), (q + In(es))[|Out(r, es)|..])
  }

  lemma {:induction false} RunHolds(r: Ring, q: seq<byte>, es: seq<Event>)
    requires Holds(r, q) && Runs(r, es)
    ensures Served(r, q, es)
    decreases |es|
  {
    hide Holds, Put, Get, Head, Full, Empty, Served;
    if es == [] {
      ServedNothing(r, q);
    } else if es[0].Written? {
      PutHolds(r, q, es[0].ch);
      RunHolds(Put(r, es[0].ch), q + [es[0].ch], es[1..]);
      ServedWritten(r, q, es);
    } else {
      GetHolds(r, q);
      RunHolds(Get(r), q[1..], es[1..]);
      ServedTaken(r, q, es);
    }
  }

  lemma ServedNothing(r: Ring, q: seq<byte>)
    requires Holds(r, q)
    ensures Served(r, q, [])
  {
    hide Holds;
    assert (q + [])[0..] == q;
  }

  lemma ServedWritten(r: Ring, q: seq<byte>, es: seq<Event>)
    requires Runs(r, es) && es != [] && es[0].Written? && Served(Put(r, es[0].ch), q + [es[0].ch], es[1..])
    ensures Served(r, q, es)
  {
    WrittenFirst(r, es);
    hide Holds, Put, Full, Empty, Runs, In, Out, After;
    assert (q + [es[0].ch]) + In(es[1..]) == q + In(es);
  }

  lemma WrittenFirst(r: Ring, es: seq<Event>)
    requires Runs(r, es) && es != [] && es[0].Written?
    ensures var r1 := Put(r, es[0].ch);
            && Runs(r1, es[1..]) && In(es) == [es[0].ch] + In(es[1..])
            && Out(r, es) == Out(r1, es[1..]) && After(r, es) == After(r1, es[1..])
  {
    hide Put, Full, Empty;
  }

  lemma ServedTaken(r: Ring, q: seq<byte>, es: seq<Event>)
    requires Runs(r, es) && es != [] && es[0].Taken? && q != [] && Head(r) == q[0] && Served(Get(r), q[1..], es[1..])
    ensures Served(r, q, es)
  {
    hide Holds, Get, Head, Full, Empty;
    var r1 := Get(r);
    assert In(es) == [] + In(es[1..]);
    assert Out(r, es) == [q[0]] + Out(r1, es[1..]);
    assert After(r, es) == After(r1, es[1..]);
    OneTaken(q, In(es[1..]), Out(r1, es[1..]));
  }

  lemma OneTaken(q: seq<byte>, more: seq<byte>, out: seq<byte>)
    requires q != [] && out <= q[1..] + more
    ensures [q[0]] + out <= q + ([] + more)
    ensures (q + ([] + more))[|[q[0]] + out|..] == (q[1..] + more)[|out|..]
  {
    assert q + ([] + more) == [q[0]] + (q[1..] + more);
  }

  /** A pipe is a queue: what comes out is a prefix of what went in, the difference is what the
      ring holds, and that is never more than PIPESIZE, from any value of the counters. */
  lemma PipeIsQueue(r: Ring, es: seq<Event>)
    requires Shape(r) && Empty(r) && Runs(r, es)
    ensures Out(r, es) <= In(es) && |In(es)| - |Out(r, es)| <= PIPESIZE
    ensures Holds(After(r, es), In(es)[|Out(r, es)|..])
  {
    assert Holds(r, []);
    RunHolds(r, [], es);
    assert [] + In(es) == In(es);
  }

  // the loops

  class PipeBuffer {
    var r: Ring
    ghost var q: seq<byte>

    /** pipealloc. */
    constructor ()
      ensures Valid() && q == []
    {
      r := Ring(Copies(PIPESIZE, 0), 0, 0);
      q := [];
    }

    ghost predicate Valid()
      reads this
    {
      Holds(r, q)
    }

    /** pipewrite from byte i on, until it is done, has to sleep, or cannot read more of src. */
    method Write(src: seq<byte>, i: nat, n: nat) returns (k: nat, full: bool)
      requires Valid() && i <= n && i <= |src|
      modifies this
      ensures Valid() && i <= k <= n && k <= |src| && q == old(q) + src[i..k]
      ensures if full then k < n && |q| == PIPESIZE else k == n || (k == |src| && |q| < PIPESIZE)
    {
      hide Holds;
      k := i;
      while k < n
        invariant Valid() && i <= k <= n && k <= |src| && q == old(q) + src[i..k]
      {
        TestsExact(r, q);
        if Full(r) {
          return k, true;
        }
        if k == |src| {
          return k, false;
        }
        PutHolds(r, q, src[k]);
        ShapeOf(r, q);
        r := Put(r, src[k]);
        q := q + [src[k]];
        assert src[i..k + 1] == src[i..k] + [src[k]];
        k := k + 1;
      }
      full := false;
    }

    method TakeByte() returns (ch: byte)
      requires Valid() && !Empty(r)
      modifies this
      ensures Valid() && old(q) == [ch] + q
    {
      GetHolds(r, q);
      ch := r.data[r.nread % PIPESIZE];
      r := Get(r);
      assert q == [q[0]] + q[1..];
      q := q[1..];
    }

    /** piperead once there is something to read or no writer is left: up to n bytes for a
        destination of `avail` writable bytes. A byte that cannot be copied out is lost. */
    method Read(n: nat, avail: nat) returns (got: seq<byte>, ghost lost: seq<byte>)
      requires Valid()
      modifies this
      ensures Valid() && old(q) == got + lost + q
      ensures |got| == Min(Min(n, avail), |old(q)|) && |lost| == if avail < Min(n, |old(q)|) then 1 else 0
    {
      hide Holds, Empty;
      got, lost := [], [];
      while |got| < n
        invariant Valid() && |got| <= n && |got| <= avail && old(q) == got + q
        decreases n - |got|
      {
        TestsExact(r, q);
        if Empty(r) {
          return got, [];
        }
        var ch := TakeByte();
        if |got| == avail {
          return got, [ch];
        }
        got := got + [ch];
      }
    }
  }

  function Min(a: nat, b: nat): nat {
    if a < b then a else b
  }

  lemma ShapeOf(r: Ring, q: seq<byte>)
    requires Holds(r, q)
    ensures Shape(r)
  {
  }
}
