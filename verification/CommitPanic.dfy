/** A run in which commit panics (kernel/log.c, kernel/bio.c): three operations log 29 blocks, all
    that a log of LOGSIZE blocks can take, a reader holds one more buffer, and the last end_op finds
    no buffer for the first log slot. */
module CommitPanic {
  import opened Bytes
  import opened Params
  import opened Log
  import opened BufferCache
  import opened Coherence
  import opened LogRuns

  const READER: Pid := 3

  /** Room for NBUF home blocks behind the log. */
  predicate Roomy(l: Layout, d: Disk) {
    Fits(l, d) && l.size == LOGSIZE && l.start + l.size + NBUF <= |d|
  }

  /** The k-th block that is logged. */
  function Target(l: Layout, k: nat): nat {
    l.start + l.size + k
  }

  function Blank(): Buf {
    Buf(0, 0, false, 0, ZeroBlock())
  }

  function Logged(l: Layout, d: Disk, k: nat): Buf
    requires Target(l, k) < |d|
  {
    Buf(ROOTDEV, Target(l, k), true, 1, d[Target(l, k)])
  }

  /** The buffers after k blocks have been logged and released. */
  function Bufs(l: Layout, d: Disk, k: nat): seq<Buf>
    requires Roomy(l, d) && k <= NBUF
  {
    seq(NBUF, i requires 0 <= i < NBUF => if i < k then Logged(l, d, i) else Blank())
  }

  function Blocks(l: Layout, k: nat): (h: seq<nat>)
    ensures |h| == k && forall i :: 0 <= i < k ==> h[i] == Target(l, i)
  {
    if k == 0 then [] else Blocks(l, k - 1) + [Target(l, k - 1)]
  }

  function Words(l: Layout, d: Disk, k: nat): (h: seq<word>)
    requires Roomy(l, d) && k <= NBUF
    ensures h == Blocks(l, k)
  {
    if k == 0 then [] else Words(l, d, k - 1) + [Target(l, k - 1)]
  }

  /** The state after k blocks have been logged by operations 0, 1 and 2. */
  function At(l: Layout, d: Disk, k: nat): State
    requires Roomy(l, d) && k <= NBUF
  {
    Boot(d, Cache(Bufs(l, d, k), FreshCache().order)).(lh := Words(l, d, k), inTx := {0, 1, 2})
  }

  /** bget takes the first free buffer in the order of a fresh cache. */
  lemma FirstFree(c: Cache, k: nat, b: nat)
    requires Shape(c) && k < NBUF && (forall j :: 0 <= j < NBUF ==> c.order[j] == NBUF - 1 - j)
    requires (forall j :: 0 <= j < NBUF ==> !Caches(c.buf[j], b)) && (forall j :: 0 <= j < k ==> c.buf[j].refcnt > 0)
    requires c.buf[k].refcnt == 0
    ensures Choose(c, b) == Some(k)
  {
    hide Lookup, Victim;
    LookupFinds(c.buf, c.order, b, 0);
    assert Lookup(c.buf, c.order, b, 0).None?;
    VictimIsLeastRecent(c.buf, c.order, NBUF);
    var v := Victim(c.buf, c.order, NBUF);
    assert c.order[NBUF - 1 - k] == k;
    assert v.Some?;
    var j :| 0 <= j < NBUF && c.order[j] == v.value && c.buf[v.value].refcnt == 0
             && forall m :: j < m < NBUF ==> c.buf[c.order[m]].refcnt > 0;
    assert NBUF - 1 - k <= j;
    assert v.value == NBUF - 1 - j >= k;
  }

  /** The next block gets the next buffer. */
  lemma NextBuffer(l: Layout, d: Disk, k: nat, b: nat)
    requires Roomy(l, d) && k < NBUF && forall i :: 0 <= i < k ==> Target(l, i) != b
    ensures Shape(Cache(Bufs(l, d, k), FreshCache().order))
    ensures Choose(Cache(Bufs(l, d, k), FreshCache().order), b) == Some(k)
  {
    hide Choose;
    var bufs := Bufs(l, d, k);
    assert forall j :: 0 <= j < NBUF ==> bufs[j] == if j < k then Logged(l, d, j) else Blank();
    assert Blank().refcnt == 0 && Blank().dev != ROOTDEV;
    FirstFree(Cache(Bufs(l, d, k), FreshCache().order), k, b);
  }

  /** One block is read, logged and released by process p, in six steps. */
  function Turn(l: Layout, p: Pid, k: nat): seq<Step> {
    [Bget(p, Target(l, k)), Lock(p, k), ReadIn(p, k), LogWrite(p, k), Unlock(p, k), Release(p, k)]
  }

  /** The reader, or an operation, has got block k and not read it yet. */
  function Got(l: Layout, d: Disk, p: Pid, k: nat): State
    requires Roomy(l, d) && k < NBUF
  {
    var s := At(l, d, k);
    s.(cache := s.cache.(buf := s.cache.buf[k := Buf(ROOTDEV, Target(l, k), false, 1, ZeroBlock())]),
       refs := s.refs[k := multiset{p}])
  }

  lemma GetStep(l: Layout, d: Disk, p: Pid, k: nat)
    requires Roomy(l, d) && k < NBUF
    ensures Sane(At(l, d, k)) && CanGet(l, At(l, d, k), p, Target(l, k))
    ensures DoGet(l, At(l, d, k), p, Target(l, k)) == Got(l, d, p, k)
  {
    hide Choose, Words;
    NextBuffer(l, d, k, Target(l, k));
    var s, s' := At(l, d, k), DoGet(l, At(l, d, k), p, Target(l, k));
    assert s.refs[k] == multiset{} && multiset{} + multiset{p} == multiset{p};
    assert s.cache.buf[k] == Blank();
    assert s'.cache.buf == Got(l, d, p, k).cache.buf;
  }

  /** Block k is locked and its contents are in. */
  function Loaded(l: Layout, d: Disk, p: Pid, k: nat): State
    requires Roomy(l, d) && k < NBUF
  {
    var s := Got(l, d, p, k);
    s.(cache := s.cache.(buf := s.cache.buf[k := Logged(l, d, k)]), lock := s.lock[k := Some(p)])
  }

  lemma LoadSteps(l: Layout, d: Disk, p: Pid, k: nat)
    requires Roomy(l, d) && k < NBUF
    ensures var s := Got(l, d, p, k);
            && Sane(s) && CanLock(s, p, k)
            && var s' := DoLock(s, p, k); Sane(s') && CanReadIn(s', p, k) && DoReadIn(s', p, k) == Loaded(l, d, p, k)
  {
    var s' := DoLock(Got(l, d, p, k), p, k);
    var c := Fill(s'.cache, k, d);
    assert c.buf == Loaded(l, d, p, k).cache.buf;
  }

  /** Block k is logged and still locked. */
  function Pinning(l: Layout, d: Disk, p: Pid, k: nat): State
    requires Roomy(l, d) && k < NBUF
  {
    var s := Loaded(l, d, p, k);
    s.(cache := Pin(s.cache, k), lh := Words(l, d, k + 1))
  }

  lemma LogStep(l: Layout, d: Disk, p: Pid, k: nat)
    requires Roomy(l, d) && k < NBUF - 1 && p in {0, 1, 2}
    ensures var s := Loaded(l, d, p, k);
            Sane(s) && CanLogWrite(l, s, p, k) && DoLogWrite(l, s, p, k) == Pinning(l, d, p, k)
  {
    var s := Loaded(l, d, p, k);
    assert |s.inTx| == 3;
    assert Target(l, k) !in s.lh;
    assert s.dirty - {k} == {};
  }

  lemma DropSteps(l: Layout, d: Disk, p: Pid, k: nat)
    requires Roomy(l, d) && k < NBUF - 1
    ensures var s := Pinning(l, d, p, k);
            && Sane(s) && CanUnlock(s, p, k)
            && var s' := DoUnlock(s, p, k); Sane(s') && CanRelease(s', p, k) && DoRelease(s', p, k) == At(l, d, k + 1)
  {
    hide Words;
    var s := DoRelease(DoUnlock(Pinning(l, d, p, k), p, k), p, k);
    assert s.cache.buf == Bufs(l, d, k + 1);
    assert s.lock == At(l, d, k + 1).lock;
    assert multiset{p} - multiset{p} == multiset{};
    assert s.refs == At(l, d, k + 1).refs;
  }

  // putting the run together

  lemma {:induction false} RunsAppend(l: Layout, s: State, a: seq<Step>, b: seq<Step>)
    requires Runs(l, s, a) && Runs(l, After(l, s, a), b)
    ensures Runs(l, s, a + b) && After(l, s, a + b) == After(l, After(l, s, a), b)
    decreases |a|
  {
    hide Enabled, Do;
    if a == [] {
      assert a + b == b;
    } else {
      assert (a + b)[0] == a[0] && (a + b)[1..] == a[1..] + b;
      RunsAppend(l, Do(l, s, a[0]), a[1..], b);
    }
  }

  lemma OneStep(l: Layout, s: State, step: Step)
    requires Sane(s) && Enabled(l, s, step)
    ensures Runs(l, s, [step]) && After(l, s, [step]) == Do(l, s, step)
  {
    hide Enabled, Do;
    assert [step][1..] == [];
  }

  lemma StepThen(l: Layout, s: State, step: Step, rest: seq<Step>)
    requires Sane(s) && Enabled(l, s, step) && Runs(l, Do(l, s, step), rest)
    ensures Runs(l, s, [step] + rest) && After(l, s, [step] + rest) == After(l, Do(l, s, step), rest)
  {
    hide Enabled, Do;
    assert ([step] + rest)[1..] == rest;
  }

  lemma TurnRuns(l: Layout, d: Disk, p: Pid, k: nat)
    requires Roomy(l, d) && k < NBUF - 1 && p in {0, 1, 2}
    ensures Runs(l, At(l, d, k), Turn(l, p, k)) && After(l, At(l, d, k), Turn(l, p, k)) == At(l, d, k + 1)
  {
    hide At, Got, Loaded, Pinning, DoGet, DoLock, DoReadIn, DoLogWrite, DoUnlock, DoRelease;
    hide CanGet, CanLock, CanReadIn, CanLogWrite, CanUnlock, CanRelease, Runs, After;
    GetStep(l, d, p, k);
    LoadSteps(l, d, p, k);
    LogStep(l, d, p, k);
    DropSteps(l, d, p, k);
    var s1 := Got(l, d, p, k);
    var s2 := DoLock(s1, p, k);
    var s3 := Loaded(l, d, p, k);
    var s4 := Pinning(l, d, p, k);
    var s5 := DoUnlock(s4, p, k);
    OneStep(l, s5, Release(p, k));
    StepThen(l, s4, Unlock(p, k), [Release(p, k)]);
    StepThen(l, s3, LogWrite(p, k), [Unlock(p, k)] + [Release(p, k)]);
    StepThen(l, s2, ReadIn(p, k), [LogWrite(p, k)] + ([Unlock(p, k)] + [Release(p, k)]));
    StepThen(l, s1, Lock(p, k), [ReadIn(p, k)] + ([LogWrite(p, k)] + ([Unlock(p, k)] + [Release(p, k)])));
    StepThen(l, At(l, d, k), Bget(p, Target(l, k)), [Lock(p, k)] + ([ReadIn(p, k)] + ([LogWrite(p, k)] + ([Unlock(p,
        k)] + [Release(p, k)]))));
    assert Turn(l, p, k) ==
           [Bget(p, Target(l, k))] + ([Lock(p, k)] + ([ReadIn(p, k)] + ([LogWrite(p, k)] + ([Unlock(p,
               k)] + [Release(p, k)]))));
  }

  /** The first k blocks, at most MAXOPBLOCKS by each operation. */
  function Turns(l: Layout, k: nat): seq<Step> {
    if k == 0 then [] else Turns(l, k - 1) + Turn(l, (k - 1) / MAXOPBLOCKS, k - 1)
  }

  lemma {:induction false} TurnsRun(l: Layout, d: Disk, k: nat)
    requires Roomy(l, d) && k < NBUF
    ensures Runs(l, At(l, d, 0), Turns(l, k)) && After(l, At(l, d, 0), Turns(l, k)) == At(l, d, k)
  {
    hide At, Turn, Runs, After;
    if k == 0 {
      NoSteps(l, At(l, d, 0));
    } else {
      TurnsRun(l, d, k - 1);
      TurnRuns(l, d, (k - 1) / MAXOPBLOCKS, k - 1);
      RunsAppend(l, At(l, d, 0), Turns(l, k - 1), Turn(l, (k - 1) / MAXOPBLOCKS, k - 1));
    }
  }

  lemma NoSteps(l: Layout, s: State)
    ensures Runs(l, s, []) && After(l, s, []) == s
  {
  }

  function Begins(): seq<Step> {
    [BeginOp(0), BeginOp(1), BeginOp(2)]
  }

  lemma BeginsRun(l: Layout, d: Disk)
    requires Roomy(l, d)
    ensures Runs(l, Boot(d, FreshCache()), Begins()) && After(l, Boot(d, FreshCache()), Begins()) == At(l, d, 0)
  {
    hide Runs, After;
    var s0 := Boot(d, FreshCache());
    var s1, s2, s3 := s0.(inTx := {0}), s0.(inTx := {0, 1}), s0.(inTx := {0, 1, 2});
    assert DoBegin(s0, 0) == s1 && DoBegin(s1, 1) == s2 && DoBegin(s2, 2) == s3;
    NoneLogged(l, d);
    assert s3 == At(l, d, 0);
    OneStep(l, s2, BeginOp(2));
    StepThen(l, s1, BeginOp(1), [BeginOp(2)]);
    StepThen(l, s0, BeginOp(0), [BeginOp(1)] + [BeginOp(2)]);
    assert Begins() == [BeginOp(0)] + ([BeginOp(1)] + [BeginOp(2)]);
  }

  lemma NoneLogged(l: Layout, d: Disk)
    requires Roomy(l, d)
    ensures Bufs(l, d, 0) == FreshCache().buf
  {
    var a, b := Bufs(l, d, 0), FreshCache().buf;
    assert forall j :: 0 <= j < NBUF ==> a[j] == Blank();
    assert forall j :: 0 <= j < NBUF ==> b[j] == Blank();
  }

  function Ends(l: Layout): seq<Step> {
    [Bget(READER, Target(l, NBUF - 1)), EndOp(0), EndOp(1), EndOp(2)]
  }

  /** The last operation is to commit while the reader holds the only buffer that is not pinned. */
  function Stuck(l: Layout, d: Disk): State
    requires Roomy(l, d)
  {
    Got(l, d, READER, NBUF - 1).(inTx := {}, committer := Some(2), phase := Logging(0))
  }

  lemma EndsRun(l: Layout, d: Disk)
    requires Roomy(l, d)
    ensures Runs(l, At(l, d, NBUF - 1), Ends(l)) && After(l, At(l, d, NBUF - 1), Ends(l)) == Stuck(l, d)
  {
    hide Choose, DoGet, CanGet, Runs, After;
    GetStep(l, d, READER, NBUF - 1);
    var s0 := Got(l, d, READER, NBUF - 1);
    var s1, s2 := s0.(inTx := {1, 2}), s0.(inTx := {2});
    assert s0.dirty == {};
    assert DoEnd(s0, 0) == s1 && DoEnd(s1, 1) == s2 && DoEnd(s2, 2) == Stuck(l, d);
    OneStep(l, s2, EndOp(2));
    StepThen(l, s1, EndOp(1), [EndOp(2)]);
    StepThen(l, s0, EndOp(0), [EndOp(1)] + [EndOp(2)]);
    StepThen(l, At(l, d, NBUF - 1), Bget(READER, Target(l, NBUF - 1)), [EndOp(0)] + ([EndOp(1)] + [EndOp(2)]));
    assert Ends(l) == [Bget(READER, Target(l, NBUF - 1))] + ([EndOp(0)] + ([EndOp(1)] + [EndOp(2)]));
  }

  /** From boot, with a log of LOGSIZE blocks and each operation within its budget, commit can reach
      bget's panic with fewer than NBUF blocks logged. */
  lemma CommitCanPanic(l: Layout, d: Disk)
    requires Roomy(l, d) && HeadCount(l, d) == 0
    ensures var steps := Begins() + (Turns(l, NBUF - 1) + Ends(l));
            && Runs(l, Boot(d, FreshCache()), steps)
            && var s := After(l, Boot(d, FreshCache()), steps);
            && Inv(l, s) && s.committer == Some(2) && s.phase == Logging(0) && |s.lh| == NBUF - 1
            && Choose(s.cache, l.start + 1).None?
  {
    hide At, Turns, Ends, Stuck, Runs, After, Inv, Choose, Begins;
    BeginsRun(l, d);
    TurnsRun(l, d, NBUF - 1);
    EndsRun(l, d);
    RunsAppend(l, At(l, d, 0), Turns(l, NBUF - 1), Ends(l));
    RunsAppend(l, Boot(d, FreshCache()), Begins(), Turns(l, NBUF - 1) + Ends(l));
    FreshIsSettled(d);
    BootKeeps(l, d, FreshCache());
    RunKeeps(l, Boot(d, FreshCache()), Begins() + (Turns(l, NBUF - 1) + Ends(l)));
    NoneLeft(l, d);
  }

  lemma NoneLeft(l: Layout, d: Disk)
    requires Roomy(l, d)
    ensures var s := Stuck(l, d);
            s.committer == Some(2) && s.phase == Logging(0) && |s.lh| == NBUF - 1 && Shape(s.cache) &&
                Choose(s.cache, l.start + 1).None?
  {
    hide Choose;
    var s := Stuck(l, d);
    ChooseSpec(s.cache, l.start + 1);
    assert forall j :: 0 <= j < NBUF - 1 ==> s.cache.buf[j] == Logged(l, d, j);
    assert s.cache.buf[NBUF - 1].refcnt == 1;
  }
}
