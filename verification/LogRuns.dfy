/** Whole runs of the file system's storage layers: processes use the buffer cache and the log
    concurrently, one of them commits, and the machine may crash at any moment and recover.
    A step is what the kernel does atomically with respect to the other processes. */
module LogRuns {
  import opened Bytes
  import opened Params
  import opened Sets
  import opened Log
  import opened BufferCache
  import opened Coherence
  import R = Reservation

  type Pid = nat

  /** How far the committing process has got. */
  datatype Phase =
    | Quiet                   // no commit under way
    | Logging(tail: nat)      // write_log: slots below tail are written
    | Installing(tail: nat)   // header written; install_trans is at block tail
    | Unpinning(tail: nat)    // block tail is home but still pinned
    | Erased                  // header cleared

  /** `latest` is what readers must see; `durable` is what a crash must preserve. */
  datatype State = State(
    disk: Disk,
    cache: Cache,
    lock: seq<Option<Pid>>,
    refs: seq<multiset<Pid>>,
    lh: seq<word>,
    inTx: set<Pid>,
    committer: Option<Pid>,
    phase: Phase,
    dirty: set<nat>,
    latest: Disk,
    durable: Disk)

  datatype Step =
    | BeginOp(p: Pid)
    | EndOp(p: Pid)
    | Bget(p: Pid, b: nat)
    | Lock(p: Pid, i: nat)
    | ReadIn(p: Pid, i: nat)
    | Modify(p: Pid, i: nat, data: Block)
    | LogWrite(p: Pid, i: nat)
    | Unlock(p: Pid, i: nat)
    | Release(p: Pid, i: nat)
    | CopyToLog(p: Pid, i: nat, j: nat)
    | CommitHead(p: Pid, i: nat)
    | CopyHome(p: Pid, i: nat, j: nat)
    | UnpinHome(p: Pid, j: nat)
    | EraseHead(p: Pid, i: nat)
    | EndCommit(p: Pid)
    | Crash(crashes: seq<nat>, cache: Cache)

  function Held(refs: seq<multiset<Pid>>): (r: seq<nat>)
    ensures |r| == |refs|
  {
    if refs == [] then [] else Held(refs[..|refs| - 1]) + [|refs[|refs| - 1]|]
  }

  /** The logged blocks that still carry a pin. */
  function Pins(lh: seq<nat>, phase: Phase): set<nat> {
    match phase
    case Quiet => Elements(lh)
    case Logging(_) => Elements(lh)
    case Installing(t) => if t <= |lh| then Elements(lh[t..]) else {}
    case Unpinning(t) => if t <= |lh| then Elements(lh[t..]) else {}
    case Erased => {}
  }

  function UseOf(s: State): Use {
    Use(Held(s.refs), Pins(s.lh, s.phase), s.dirty, s.latest)
  }

  /** Process p has locked buffer i, whose contents are in. */
  predicate Owns(s: State, p: Pid, i: nat) {
    i < NBUF && |s.lock| == NBUF && Shape(s.cache) && s.lock[i] == Some(p) && s.cache.buf[i].valid
  }

  predicate OwnsBlock(s: State, p: Pid, i: nat, b: nat) {
    Owns(s, p, i) && s.cache.buf[i].blockno == b
  }

  predicate Committing(s: State, p: Pid) {
    s.committer == Some(p)
  }

  predicate Sane(s: State) {
    Shape(s.cache) && |s.lock| == |s.refs| == NBUF && |s.disk| == |s.latest|
  }

  /** memmove into a locked buffer followed by bwrite. */
  function WriteThrough(s: State, i: nat, data: Block): State
    requires Sane(s) && i < NBUF && s.cache.buf[i].blockno < |s.disk|
  {
    var b := s.cache.buf[i].blockno;
    s.(cache := Store(s.cache, i, data), disk := s.disk[b := data], latest := s.latest[b := data])
  }

  function FreshCache(): Cache {
    Cache(seq(NBUF, i => Buf(0, 0, false, 0, ZeroBlock())), seq(NBUF, i requires 0 <= i < NBUF => NBUF - 1 - i))
  }

  /** What a cache holds when nobody uses it: copies of the disk. */
  ghost predicate Settled(cache: Cache, disk: Disk) {
    Coherent(cache, Use(Unheld(), {}, {}, disk), disk)
  }

  /** The machine is up with this cache on a disk with an empty log. */
  function Boot(disk: Disk, cache: Cache): State {
    State(disk, cache, seq(NBUF, i => None), seq(NBUF, i => multiset{}), [], {}, None, Quiet, {}, disk, disk)
  }

  // begin_op and end_op

  predicate CanBegin(s: State, p: Pid) {
    p !in s.inTx && s.committer.None? && |s.lh| + (|s.inTx| + 1) * MAXOPBLOCKS <= LOGSIZE
  }

  function DoBegin(s: State, p: Pid): State {
    s.(inTx := s.inTx + {p})
  }

  /** An operation ends only after logging every buffer it changed. */
  predicate CanEnd(s: State, p: Pid) {
    p in s.inTx && forall i :: i in s.dirty && i < |s.lock| ==> s.lock[i] != Some(p)
  }

  function DoEnd(s: State, p: Pid): State {
    if s.inTx == {p} then s.(inTx := {}, committer := Some(p), phase := Logging(0)) else s.(inTx := s.inTx - {p})
  }

  // bread, in three steps: bget under bcache.lock, acquiresleep, and the disk read

  predicate CanGet(l: Layout, s: State, p: Pid, b: nat)
    requires Sane(s)
  {
    b < |s.disk| && (Home(l, |s.disk|, b) || Committing(s, p)) && Choose(s.cache, b).Some?
  }

  function DoGet(l: Layout, s: State, p: Pid, b: nat): State
    requires Sane(s) && CanGet(l, s, p, b)
  {
    ChooseSpec(s.cache, b);
    var i := Choose(s.cache, b).value;
    s.(cache := Claim(s.cache, i, b), refs := s.refs[i := s.refs[i] + multiset{p}])
  }

  predicate CanLock(s: State, p: Pid, i: nat)
    requires Sane(s)
  {
    i < NBUF && p in s.refs[i] && s.lock[i].None?
  }

  function DoLock(s: State, p: Pid, i: nat): State
    requires Sane(s) && CanLock(s, p, i)
  {
    s.(lock := s.lock[i := Some(p)])
  }

  predicate CanReadIn(s: State, p: Pid, i: nat)
    requires Sane(s)
  {
    i < NBUF && s.lock[i] == Some(p) && s.cache.buf[i].dev == ROOTDEV && s.cache.buf[i].blockno < |s.disk|
  }

  function DoReadIn(s: State, p: Pid, i: nat): State
    requires Sane(s) && CanReadIn(s, p, i)
  {
    s.(cache := Fill(s.cache, i, s.disk))
  }

  // changing a buffer and log_write

  predicate CanModify(l: Layout, s: State, p: Pid, i: nat)
    requires Sane(s)
  {
    Owns(s, p, i) && p in s.inTx && Home(l, |s.disk|, s.cache.buf[i].blockno)
  }

  function DoModify(l: Layout, s: State, p: Pid, i: nat, data: Block): State
    requires Sane(s) && CanModify(l, s, p, i)
  {
    s.(cache := Store(s.cache, i, data), dirty := s.dirty + {i}, latest := s.latest[s.cache.buf[i].blockno := data])
  }

  predicate CanLogWrite(l: Layout, s: State, p: Pid, i: nat)
    requires Sane(s)
  {
    && CanModify(l, s, p, i) && s.cache.buf[i].blockno < 0x1_0000_0000
    && !R.TooBig(R.LogState(l.size, s.lh, |s.inTx|, false))
  }

  function DoLogWrite(l: Layout, s: State, p: Pid, i: nat): State
    requires Sane(s) && CanLogWrite(l, s, p, i)
  {
    var b := s.cache.buf[i].blockno;
    s.(cache := if b in s.lh then s.cache else Pin(s.cache, i),
       lh := if b in s.lh then s.lh else s.lh + [b],
       dirty := s.dirty - {i})
  }

  // brelse, in two steps: releasesleep, and the reference count under bcache.lock

  predicate CanUnlock(s: State, p: Pid, i: nat)
    requires Sane(s)
  {
    i < NBUF && s.lock[i] == Some(p) && i !in s.dirty
  }

  function DoUnlock(s: State, p: Pid, i: nat): State
    requires Sane(s) && CanUnlock(s, p, i)
  {
    s.(lock := s.lock[i := None])
  }

  predicate CanRelease(s: State, p: Pid, i: nat)
    requires Sane(s)
  {
    i < NBUF && p in s.refs[i] && s.lock[i] != Some(p) && s.cache.buf[i].refcnt > 0
  }

  function DoRelease(s: State, p: Pid, i: nat): State
    requires Sane(s) && CanRelease(s, p, i)
  {
    s.(cache := Drop(s.cache, i), refs := s.refs[i := s.refs[i] - multiset{p}])
  }

  // commit: write_log, write_head, install_trans, write_head

  predicate CanCopyToLog(l: Layout, s: State, p: Pid, i: nat, j: nat)
    requires Sane(s)
  {
    && Committing(s, p) && s.phase.Logging? && s.phase.tail < |s.lh|
    && OwnsBlock(s, p, i, l.start + 1 + s.phase.tail) && OwnsBlock(s, p, j, s.lh[s.phase.tail])
    && l.start + 1 + s.phase.tail < |s.disk|
  }

  function DoCopyToLog(l: Layout, s: State, p: Pid, i: nat, j: nat): State
    requires Sane(s) && CanCopyToLog(l, s, p, i, j)
  {
    WriteThrough(s, i, s.cache.buf[j].data).(phase := Logging(s.phase.tail + 1))
  }

  predicate CanCommitHead(l: Layout, s: State, p: Pid, i: nat)
    requires Sane(s)
  {
    && Committing(s, p) && s.phase == Logging(|s.lh|) && 0 < |s.lh| <= LOGSIZE
    && OwnsBlock(s, p, i, l.start) && l.start < |s.disk|
  }

  /** The commit point: from here on a crash keeps everything readers see now. */
  function DoCommitHead(l: Layout, s: State, p: Pid, i: nat): State
    requires Sane(s) && CanCommitHead(l, s, p, i)
  {
    var s' := WriteThrough(s, i, HeadBlock(s.cache.buf[i].data, s.lh));
    s'.(phase := Installing(0), durable := s'.latest)
  }

  predicate CanCopyHome(l: Layout, s: State, p: Pid, i: nat, j: nat)
    requires Sane(s)
  {
    && Committing(s, p) && s.phase.Installing? && s.phase.tail < |s.lh|
    && OwnsBlock(s, p, i, l.start + 1 + s.phase.tail) && OwnsBlock(s, p, j, s.lh[s.phase.tail])
    && s.lh[s.phase.tail] < |s.disk|
  }

  function DoCopyHome(l: Layout, s: State, p: Pid, i: nat, j: nat): State
    requires Sane(s) && CanCopyHome(l, s, p, i, j)
  {
    WriteThrough(s, j, s.cache.buf[i].data).(phase := Unpinning(s.phase.tail))
  }

  predicate CanUnpinHome(s: State, p: Pid, j: nat)
    requires Sane(s)
  {
    && Committing(s, p) && s.phase.Unpinning? && s.phase.tail < |s.lh|
    && OwnsBlock(s, p, j, s.lh[s.phase.tail]) && s.cache.buf[j].refcnt > 0
  }

  function DoUnpinHome(s: State, p: Pid, j: nat): State
    requires Sane(s) && CanUnpinHome(s, p, j)
  {
    s.(cache := Unpin(s.cache, j), phase := Installing(s.phase.tail + 1))
  }

  predicate CanEraseHead(l: Layout, s: State, p: Pid, i: nat)
    requires Sane(s)
  {
    Committing(s, p) && s.phase == Installing(|s.lh|) && OwnsBlock(s, p, i, l.start) && l.start < |s.disk|
  }

  function DoEraseHead(l: Layout, s: State, p: Pid, i: nat): State
    requires Sane(s) && CanEraseHead(l, s, p, i)
  {
    WriteThrough(s, i, HeadBlock(s.cache.buf[i].data, [])).(phase := Erased, lh := [])
  }

  predicate CanEndCommit(s: State, p: Pid) {
    Committing(s, p) && (s.phase.Erased? || (s.phase == Logging(0) && s.lh == []))
  }

  function DoEndCommit(s: State, p: Pid): State {
    s.(committer := None, phase := Quiet)
  }

  // a crash, any number of further crashes during recovery, and a recovery that completes

  ghost function AfterRecovery(l: Layout, s: State, crashes: seq<nat>): Disk
    requires Recoverable(l, s.disk, s.durable)
  {
    Recovered(l, AfterCrashes(l, s.disk, s.durable, crashes))
  }

  /** Recovery leaves some blocks in the cache. */
  ghost predicate CanCrash(l: Layout, s: State, crashes: seq<nat>, cache: Cache) {
    Recoverable(l, s.disk, s.durable) && Settled(cache, AfterRecovery(l, s, crashes))
  }

  ghost function DoCrash(l: Layout, s: State, crashes: seq<nat>, cache: Cache): State
    requires CanCrash(l, s, crashes, cache)
  {
    Boot(AfterRecovery(l, s, crashes), cache)
  }

  ghost predicate Enabled(l: Layout, s: State, step: Step)
    requires Sane(s)
  {
    match step
    case BeginOp(p) => CanBegin(s, p)
    case EndOp(p) => CanEnd(s, p)
    case Bget(p, b) => CanGet(l, s, p, b)
    case Lock(p, i) => CanLock(s, p, i)
    case ReadIn(p, i) => CanReadIn(s, p, i)
    case Modify(p, i, data) => CanModify(l, s, p, i)
    case LogWrite(p, i) => CanLogWrite(l, s, p, i)
    case Unlock(p, i) => CanUnlock(s, p, i)
    case Release(p, i) => CanRelease(s, p, i)
    case CopyToLog(p, i, j) => CanCopyToLog(l, s, p, i, j)
    case CommitHead(p, i) => CanCommitHead(l, s, p, i)
    case CopyHome(p, i, j) => CanCopyHome(l, s, p, i, j)
    case UnpinHome(p, j) => CanUnpinHome(s, p, j)
    case EraseHead(p, i) => CanEraseHead(l, s, p, i)
    case EndCommit(p) => CanEndCommit(s, p)
    case Crash(crashes, cache) => CanCrash(l, s, crashes, cache)
  }

  ghost function Do(l: Layout, s: State, step: Step): State
    requires Sane(s) && Enabled(l, s, step)
  {
    match step
    case BeginOp(p) => DoBegin(s, p)
    case EndOp(p) => DoEnd(s, p)
    case Bget(p, b) => DoGet(l, s, p, b)
    case Lock(p, i) => DoLock(s, p, i)
    case ReadIn(p, i) => DoReadIn(s, p, i)
    case Modify(p, i, data) => DoModify(l, s, p, i, data)
    case LogWrite(p, i) => DoLogWrite(l, s, p, i)
    case Unlock(p, i) => DoUnlock(s, p, i)
    case Release(p, i) => DoRelease(s, p, i)
    case CopyToLog(p, i, j) => DoCopyToLog(l, s, p, i, j)
    case CommitHead(p, i) => DoCommitHead(l, s, p, i)
    case CopyHome(p, i, j) => DoCopyHome(l, s, p, i, j)
    case UnpinHome(p, j) => DoUnpinHome(s, p, j)
    case EraseHead(p, i) => DoEraseHead(l, s, p, i)
    case EndCommit(p) => DoEndCommit(s, p)
    case Crash(crashes, cache) => DoCrash(l, s, crashes, cache)
  }

  // the invariant

  /** Buffers are locked by processes that reference them; changed buffers are locked by an
      operation in progress. */
  predicate LocksOk(l: Layout, s: State)
    requires Sane(s)
  {
    && (forall i :: 0 <= i < NBUF && s.lock[i].Some? ==> s.lock[i].value in s.refs[i])
    && (forall i :: i in s.dirty ==> i < NBUF && s.lock[i].Some? && s.lock[i].value in s.inTx
                                     && Home(l, |s.disk|, s.cache.buf[i].blockno))
  }

  predicate LogOk(l: Layout, s: State) {
    && Entries(l, |s.disk|, s.lh)
    && (s.committer.None? <==> s.phase.Quiet?)
    && (s.committer.Some? ==> s.inTx == {})
    && match s.phase
       case Quiet => true
       case Logging(t) => t <= |s.lh|
       case Installing(t) => t <= |s.lh|
       case Unpinning(t) => t < |s.lh|
       case Erased => s.lh == []
  }

  /** The slots below n hold the latest contents of their blocks. */
  predicate SlotsMatch(l: Layout, s: State, n: nat)
    requires Sane(s) && Fits(l, s.disk) && Entries(l, |s.disk|, s.lh) && n <= |s.lh|
  {
    forall i :: 0 <= i < n ==> s.disk[l.start + 1 + i] == s.latest[s.lh[i]]
  }

  /** Before the header write the disk itself is durable; after it, what readers see is. */
  ghost predicate DurableOk(l: Layout, s: State)
    requires Sane(s) && Fits(l, s.disk) && LogOk(l, s)
  {
    match s.phase
    case Quiet => Clean(l, s.disk, s.durable)
    case Erased => Clean(l, s.disk, s.durable)
    case Logging(t) => Clean(l, s.disk, s.durable) && SlotsMatch(l, s, t)
    case Installing(t) => PastHead(l, s)
    case Unpinning(t) => PastHead(l, s) && s.disk[s.lh[t]] == s.latest[s.lh[t]]
  }

  ghost predicate PastHead(l: Layout, s: State)
    requires Sane(s) && Fits(l, s.disk) && LogOk(l, s)
  {
    && HeadCount(l, s.disk) == |s.lh| && Head(l, s.disk) == s.lh
    && SlotsMatch(l, s, |s.lh|) && SameHome(l, s.latest, s.durable)
  }

  ghost predicate Inv(l: Layout, s: State) {
    && Sane(s) && Fits(l, s.disk) && |s.durable| == |s.disk|
    && Coherent(s.cache, UseOf(s), s.disk)
    && LocksOk(l, s) && LogOk(l, s) && DurableOk(l, s)
  }

  // every step keeps the invariant

  lemma {:induction false} HeldAt(refs: seq<multiset<Pid>>, i: nat)
    requires i < |refs|
    ensures Held(refs)[i] == |refs[i]|
  {
    if i < |refs| - 1 {
      HeldAt(refs[..|refs| - 1], i);
    }
  }

  lemma HeldUpdate(refs: seq<multiset<Pid>>, i: nat, m: multiset<Pid>)
    requires i < |refs|
    ensures Held(refs[i := m]) == Held(refs)[i := |m|]
  {
    var before, after := Held(refs), Held(refs[i := m]);
    forall k | 0 <= k < |refs|
      ensures after[k] == before[i := |m|][k]
    {
      HeldAt(refs[i := m], k);
      HeldAt(refs, k);
    }
  }

  /** While a commit runs nobody has an unlogged change. */
  lemma CommitSeesNoDirt(l: Layout, s: State)
    requires Inv(l, s) && s.committer.Some?
    ensures s.dirty == {} && s.inTx == {}
  {
    assert forall i :: i !in s.dirty;
  }

  lemma BeginKeeps(l: Layout, s: State, p: Pid)
    requires Inv(l, s) && CanBegin(s, p)
    ensures Inv(l, DoBegin(s, p))
  {
    assert UseOf(DoBegin(s, p)) == UseOf(s);
  }

  lemma EndKeeps(l: Layout, s: State, p: Pid)
    requires Inv(l, s) && CanEnd(s, p)
    ensures Inv(l, DoEnd(s, p))
  {
    assert UseOf(DoEnd(s, p)) == UseOf(s);
  }

  lemma GetKeeps(l: Layout, s: State, p: Pid, b: nat)
    requires Inv(l, s) && CanGet(l, s, p, b)
    ensures Inv(l, DoGet(l, s, p, b))
  {
    hide Coherent, Choose, HeadCount, Head, SameHome;
    var s' := DoGet(l, s, p, b);
    var i := Choose(s.cache, b).value;
    GetCoherent(s.cache, UseOf(s), s.disk, b);
    HeldAt(s.refs, i);
    HeldUpdate(s.refs, i, s.refs[i] + multiset{p});
    assert UseOf(s') == Hold(UseOf(s), i);
    GetRest(l, s, p, b);
  }

  lemma GetRest(l: Layout, s: State, p: Pid, b: nat)
    requires LogInv(l, s) && LocksOk(l, s) && CanGet(l, s, p, b)
    requires forall j :: j in s.dirty && j < NBUF ==> DoGet(l, s, p, b).cache.buf[j].blockno == s.cache.buf[j].blockno
    ensures LogInv(l, DoGet(l, s, p, b)) && LocksOk(l, DoGet(l, s, p, b))
  {
    hide Choose, LogInv;
    LogInvSane(l, s);
    ChooseSpec(s.cache, b);
    LogInvSame(l, s, DoGet(l, s, p, b));
  }

  lemma LogInvSane(l: Layout, s: State)
    requires LogInv(l, s)
    ensures Sane(s)
  {
  }

  lemma LogInvSame(l: Layout, s: State, s': State)
    requires LogInv(l, s) && Sane(s') && s'.disk == s.disk && s'.latest == s.latest && s'.durable == s.durable
    requires s'.lh == s.lh && s'.phase == s.phase && s'.committer == s.committer && s'.inTx == s.inTx
    ensures LogInv(l, s')
  {
  }

  lemma LockKeeps(l: Layout, s: State, p: Pid, i: nat)
    requires Inv(l, s) && CanLock(s, p, i)
    ensures Inv(l, DoLock(s, p, i))
  {
    assert UseOf(DoLock(s, p, i)) == UseOf(s);
  }

  lemma ReadInKeeps(l: Layout, s: State, p: Pid, i: nat)
    requires Inv(l, s) && CanReadIn(s, p, i)
    ensures Inv(l, DoReadIn(s, p, i))
  {
    FillCoherent(s.cache, UseOf(s), s.disk, i);
    assert UseOf(DoReadIn(s, p, i)) == UseOf(s);
  }

  lemma ModifyKeeps(l: Layout, s: State, p: Pid, i: nat, data: Block)
    requires Inv(l, s) && CanModify(l, s, p, i)
    ensures Inv(l, DoModify(l, s, p, i, data))
  {
    HeldAt(s.refs, i);
    ModifyCoherent(s.cache, UseOf(s), s.disk, i, data);
    assert UseOf(DoModify(l, s, p, i, data)) ==
           UseOf(s).(dirty := s.dirty + {i}, latest := s.latest[s.cache.buf[i].blockno := data]);
  }

  lemma LogWriteKeeps(l: Layout, s: State, p: Pid, i: nat)
    requires Inv(l, s) && CanLogWrite(l, s, p, i)
    ensures Inv(l, DoLogWrite(l, s, p, i))
  {
    var s' := DoLogWrite(l, s, p, i);
    var b := s.cache.buf[i].blockno;
    HeldAt(s.refs, i);
    LogCoherent(s.cache, UseOf(s), s.disk, i);
    assert Elements<nat>(s'.lh) == Elements<nat>(s.lh) + {b};
    assert UseOf(s') == UseOf(s).(pins := UseOf(s).pins + {b}, dirty := s.dirty - {i});
    assert s'.cache == Logged(s.cache, UseOf(s), i);
  }

  lemma UnlockKeeps(l: Layout, s: State, p: Pid, i: nat)
    requires Inv(l, s) && CanUnlock(s, p, i)
    ensures Inv(l, DoUnlock(s, p, i))
  {
    assert UseOf(DoUnlock(s, p, i)) == UseOf(s);
  }

  lemma TwoHolders(m: multiset<Pid>, p: Pid, q: Pid)
    requires p in m && q in m && p != q
    ensures |m| > 1
  {
    assert |m - multiset{p} - multiset{q}| == |m| - 2;
  }

  lemma ReleaseKeeps(l: Layout, s: State, p: Pid, i: nat)
    requires Inv(l, s) && CanRelease(s, p, i)
    ensures Inv(l, DoRelease(s, p, i))
  {
    hide Coherent;
    var s' := DoRelease(s, p, i);
    HeldAt(s.refs, i);
    HeldUpdate(s.refs, i, s.refs[i] - multiset{p});
    assert UseOf(s') == Unhold(UseOf(s), i);
    if i in s.dirty {
      TwoHolders(s.refs[i], p, s.lock[i].value);
    }
    DropCoherent(s.cache, UseOf(s), s.disk, i);
    ReleaseLocks(l, s, p, i);
  }

  lemma ReleaseLocks(l: Layout, s: State, p: Pid, i: nat)
    requires Sane(s) && LocksOk(l, s) && CanRelease(s, p, i)
    ensures Sane(DoRelease(s, p, i)) && LocksOk(l, DoRelease(s, p, i))
  {
  }

  /** The committer's view of a block that is not logged is the disk's. */
  lemma CommitterReads(l: Layout, s: State, i: nat)
    requires Inv(l, s) && s.committer.Some? && i < NBUF && s.cache.buf[i].valid
    ensures s.cache.buf[i].dev == ROOTDEV && s.cache.buf[i].blockno < |s.disk|
    ensures s.cache.buf[i].data == s.latest[s.cache.buf[i].blockno]
    ensures s.cache.buf[i].blockno !in Pins(s.lh, s.phase) ==> s.cache.buf[i].data == s.disk[s.cache.buf[i].blockno]
  {
    CommitSeesNoDirt(l, s);
    assert forall b: nat :: !IsDirty(s.cache, UseOf(s), b);
  }

  lemma WriteThroughKeeps(l: Layout, s: State, i: nat, data: Block)
    requires Inv(l, s) && i < NBUF && s.cache.buf[i].valid && s.cache.buf[i].blockno < |s.disk|
    ensures var s' := WriteThrough(s, i, data);
            Sane(s') && Coherent(s'.cache, UseOf(s'), s'.disk) && LocksOk(l, s')
  {
    var b := s.cache.buf[i].blockno;
    WriteThroughCoherent(s.cache, UseOf(s), s.disk, i, data);
    assert UseOf(WriteThrough(s, i, data)) == UseOf(s).(latest := s.latest[b := data]);
  }

  /** The part of the invariant that concerns the log and the disk. */
  ghost predicate LogInv(l: Layout, s: State) {
    Sane(s) && Fits(l, s.disk) && |s.durable| == |s.disk| && LogOk(l, s) && DurableOk(l, s)
  }

  lemma CopyToLogDurable(l: Layout, s: State, p: Pid, i: nat, j: nat)
    requires LogInv(l, s) && CanCopyToLog(l, s, p, i, j)
    requires s.cache.buf[j].data == s.latest[s.lh[s.phase.tail]]
    ensures LogInv(l, DoCopyToLog(l, s, p, i, j))
  {
    hide Word, HeadBlock, HeadWords;
    var s' := DoCopyToLog(l, s, p, i, j);
    var t := s.phase.tail;
    assert s'.disk == s.disk[l.start + 1 + t := s.latest[s.lh[t]]];
    forall k | 0 <= k < t + 1
      ensures s'.disk[l.start + 1 + k] == s'.latest[s.lh[k]]
    {
      assert Home(l, |s.disk|, s.lh[k]);
    }
    assert s'.disk[l.start] == s.disk[l.start];
    assert SameHome(l, s'.disk, s.durable);
  }

  lemma CopyToLogKeeps(l: Layout, s: State, p: Pid, i: nat, j: nat)
    requires Inv(l, s) && CanCopyToLog(l, s, p, i, j)
    ensures Inv(l, DoCopyToLog(l, s, p, i, j))
  {
    CommitterReads(l, s, j);
    WriteThroughKeeps(l, s, i, s.cache.buf[j].data);
    assert UseOf(DoCopyToLog(l, s, p, i, j)) == UseOf(WriteThrough(s, i, s.cache.buf[j].data));
    CopyToLogDurable(l, s, p, i, j);
  }

  lemma CommitHeadDurable(l: Layout, s: State, p: Pid, i: nat)
    requires LogInv(l, s) && CanCommitHead(l, s, p, i) && s.cache.buf[i].data == s.disk[l.start]
    ensures LogInv(l, DoCommitHead(l, s, p, i))
  {
    hide Word, HeadBlock, HeadWords;
    var s' := DoCommitHead(l, s, p, i);
    assert s'.disk == WriteHead(l, s.disk, s.lh);
    HeadAfterWrite(l, s.disk, s.lh);
    forall k | 0 <= k < |s.lh|
      ensures s'.disk[l.start + 1 + k] == s'.latest[s.lh[k]]
    {
      assert Home(l, |s.disk|, s.lh[k]);
    }
  }

  lemma CommitHeadKeeps(l: Layout, s: State, p: Pid, i: nat)
    requires Inv(l, s) && CanCommitHead(l, s, p, i)
    ensures Inv(l, DoCommitHead(l, s, p, i))
  {
    CommitterReads(l, s, i);
    assert l.start !in Pins(s.lh, s.phase);
    WriteThroughKeeps(l, s, i, HeadBlock(s.cache.buf[i].data, s.lh));
    assert s.lh[0..] == s.lh;
    assert UseOf(DoCommitHead(l, s, p, i)) == UseOf(WriteThrough(s, i, HeadBlock(s.cache.buf[i].data, s.lh)));
    CommitHeadDurable(l, s, p, i);
  }

  lemma CopyHomeDurable(l: Layout, s: State, p: Pid, i: nat, j: nat)
    requires LogInv(l, s) && CanCopyHome(l, s, p, i, j)
    requires s.cache.buf[i].data == s.disk[l.start + 1 + s.phase.tail]
    ensures LogInv(l, DoCopyHome(l, s, p, i, j))
  {
    hide Word, HeadBlock, HeadWords;
    var s' := DoCopyHome(l, s, p, i, j);
    var t := s.phase.tail;
    assert s.cache.buf[i].data == s.latest[s.lh[t]];
    assert s'.latest == s.latest;
    assert Home(l, |s.disk|, s.lh[t]);
    assert s'.disk[l.start] == s.disk[l.start];
    assert forall b: nat :: b < |s.disk| && b != s.lh[t] ==> s'.disk[b] == s.disk[b];
  }

  lemma CopyHomeKeeps(l: Layout, s: State, p: Pid, i: nat, j: nat)
    requires Inv(l, s) && CanCopyHome(l, s, p, i, j)
    ensures Inv(l, DoCopyHome(l, s, p, i, j))
  {
    hide Word, HeadBlock, HeadWords, Coherent;
    var s', w := DoCopyHome(l, s, p, i, j), WriteThrough(s, j, s.cache.buf[i].data);
    assert l.start + 1 + s.phase.tail !in Pins(s.lh, s.phase);
    CommitterReads(l, s, i);
    CommitterReads(l, s, j);
    WriteThroughKeeps(l, s, j, s.cache.buf[i].data);
    assert UseOf(s') == UseOf(w) && s'.cache == w.cache && s'.disk == w.disk;
    assert LocksOk(l, s');
    CopyHomeDurable(l, s, p, i, j);
  }

  lemma UnpinHomeKeeps(l: Layout, s: State, p: Pid, j: nat)
    requires Inv(l, s) && CanUnpinHome(s, p, j)
    ensures Inv(l, DoUnpinHome(s, p, j))
  {
    hide Coherent, HeadCount, Head, SameHome;
    var t := s.phase.tail;
    var b := s.lh[t];
    SuffixElements<nat>(s.lh, t);
    CommitterReads(l, s, j);
    UnpinCoherent(s.cache, UseOf(s), s.disk, j);
    assert UseOf(DoUnpinHome(s, p, j)) == UseOf(s).(pins := UseOf(s).pins - {b});
    UnpinRest(l, s, p, j);
  }

  lemma UnpinRest(l: Layout, s: State, p: Pid, j: nat)
    requires LogInv(l, s) && LocksOk(l, s) && CanUnpinHome(s, p, j)
    ensures LogInv(l, DoUnpinHome(s, p, j)) && LocksOk(l, DoUnpinHome(s, p, j))
  {
    hide HeadCount, Head, SameHome, Distinct;
  }

  lemma EraseHeadDurable(l: Layout, s: State, p: Pid, i: nat)
    requires LogInv(l, s) && CanEraseHead(l, s, p, i) && s.cache.buf[i].data == s.disk[l.start]
    requires SameHome(l, s.disk, s.latest)
    ensures LogInv(l, DoEraseHead(l, s, p, i))
  {
    hide Word, HeadBlock, HeadWords;
    var s' := DoEraseHead(l, s, p, i);
    assert s'.disk == WriteHead(l, s.disk, []);
    HeadAfterWrite(l, s.disk, []);
    assert SameHome(l, s'.disk, s'.durable);
  }

  /** Without pins and changes in progress, the disk is what readers see. */
  lemma NothingPending(l: Layout, s: State)
    requires Inv(l, s) && s.dirty == {} && Pins(s.lh, s.phase) == {}
    ensures SameHome(l, s.disk, s.latest)
  {
    assert forall b: nat :: !IsDirty(s.cache, UseOf(s), b);
  }

  lemma EraseHeadKeeps(l: Layout, s: State, p: Pid, i: nat)
    requires Inv(l, s) && CanEraseHead(l, s, p, i)
    ensures Inv(l, DoEraseHead(l, s, p, i))
  {
    hide Word, HeadBlock, HeadWords;
    assert s.lh[|s.lh|..] == [];
    assert Pins(s.lh, s.phase) == {};
    CommitSeesNoDirt(l, s);
    NothingPending(l, s);
    CommitterReads(l, s, i);
    WriteThroughKeeps(l, s, i, HeadBlock(s.cache.buf[i].data, []));
    assert UseOf(DoEraseHead(l, s, p, i)) == UseOf(WriteThrough(s, i, HeadBlock(s.cache.buf[i].data, [])));
    EraseHeadDurable(l, s, p, i);
  }

  lemma EndCommitKeeps(l: Layout, s: State, p: Pid)
    requires Inv(l, s) && CanEndCommit(s, p)
    ensures Inv(l, DoEndCommit(s, p))
  {
    assert Elements<nat>([]) == {};
    assert UseOf(DoEndCommit(s, p)) == UseOf(s);
  }

  lemma BootKeeps(l: Layout, d: Disk, cache: Cache)
    requires Fits(l, d) && HeadCount(l, d) == 0 && Settled(cache, d)
    ensures Inv(l, Boot(d, cache))
  {
    hide Coherent;
    var s := Boot(d, cache);
    forall i | 0 <= i < NBUF
      ensures Held(s.refs)[i] == 0
    {
      HeldAt(s.refs, i);
    }
    assert Held(s.refs) == Unheld();
    assert Elements<nat>([]) == {};
    assert UseOf(s) == Use(Unheld(), {}, {}, d);
    SettledShape(cache, d);
  }

  lemma SettledShape(cache: Cache, d: Disk)
    requires Settled(cache, d)
    ensures Shape(cache)
  {
  }

  /** The empty cache is one to start with. */
  lemma FreshIsSettled(d: Disk)
    ensures Settled(FreshCache(), d)
  {
    var c, u := FreshCache(), Use(Unheld(), {}, {}, d);
    assert forall b: nat :: !IsDirty(c, u, b);
  }

  /** At any moment of any run, recovery from the disk is bound to produce the durable blocks. */
  lemma AlwaysRecoverable(l: Layout, s: State)
    requires Inv(l, s)
    ensures Recoverable(l, s.disk, s.durable)
  {
    match s.phase
    case Quiet => assert Head(l, s.disk) == [];
    case Erased => assert Head(l, s.disk) == [];
    case Logging(_) => assert Head(l, s.disk) == [];
    case Installing(t) => PastHeadRedoes(l, s);
    case Unpinning(t) => PastHeadRedoes(l, s);
  }

  lemma PastHeadRedoes(l: Layout, s: State)
    requires Inv(l, s) && (s.phase.Installing? || s.phase.Unpinning?)
    ensures Redoes(l, s.disk, s.lh, s.durable)
  {
    CommitSeesNoDirt(l, s);
    assert forall b: nat :: !IsDirty(s.cache, UseOf(s), b);
    forall b: nat | Home(l, |s.disk|, b) && b !in s.lh
      ensures s.durable[b] == s.disk[b]
    {
      assert b !in Pins(s.lh, s.phase);
    }
  }

  lemma RecoveryShowsDurable(l: Layout, s: State, crashes: seq<nat>)
    requires Inv(l, s)
    ensures Recoverable(l, s.disk, s.durable)
    ensures SameHome(l, AfterRecovery(l, s, crashes), s.durable)
  {
    AlwaysRecoverable(l, s);
    RecoveryReaches(l, s.disk, s.durable, crashes);
  }

  lemma CrashKeeps(l: Layout, s: State, crashes: seq<nat>, cache: Cache)
    requires Inv(l, s)
    ensures Recoverable(l, s.disk, s.durable)
    ensures CanCrash(l, s, crashes, cache) ==>
              Inv(l, DoCrash(l, s, crashes, cache)) && SameHome(l, DoCrash(l, s, crashes, cache).latest, s.durable)
  {
    hide Inv, Recoverable, AfterCrashes, Recovered, Settled;
    AlwaysRecoverable(l, s);
    RecoveryReaches(l, s.disk, s.durable, crashes);
    if CanCrash(l, s, crashes, cache) {
      BootKeeps(l, AfterRecovery(l, s, crashes), cache);
    }
  }

  lemma StepKeeps(l: Layout, s: State, step: Step)
    requires Inv(l, s) && Enabled(l, s, step)
    ensures Inv(l, Do(l, s, step))
  {
    match step
    case BeginOp(p) => BeginKeeps(l, s, p);
    case EndOp(p) => EndKeeps(l, s, p);
    case Bget(p, b) => GetKeeps(l, s, p, b);
    case Lock(p, i) => LockKeeps(l, s, p, i);
    case ReadIn(p, i) => ReadInKeeps(l, s, p, i);
    case Modify(p, i, data) => ModifyKeeps(l, s, p, i, data);
    case LogWrite(p, i) => LogWriteKeeps(l, s, p, i);
    case Unlock(p, i) => UnlockKeeps(l, s, p, i);
    case Release(p, i) => ReleaseKeeps(l, s, p, i);
    case CopyToLog(p, i, j) => CopyToLogKeeps(l, s, p, i, j);
    case CommitHead(p, i) => CommitHeadKeeps(l, s, p, i);
    case CopyHome(p, i, j) => CopyHomeKeeps(l, s, p, i, j);
    case UnpinHome(p, j) => UnpinHomeKeeps(l, s, p, j);
    case EraseHead(p, i) => EraseHeadKeeps(l, s, p, i);
    case EndCommit(p) => EndCommitKeeps(l, s, p);
    case Crash(crashes, cache) => CrashKeeps(l, s, crashes, cache);
  }

  // whole runs

  ghost predicate Runs(l: Layout, s: State, steps: seq<Step>)
    decreases |steps|
  {
    steps == [] || (Sane(s) && Enabled(l, s, steps[0]) && Runs(l, Do(l, s, steps[0]), steps[1..]))
  }

  ghost function After(l: Layout, s: State, steps: seq<Step>): State
    requires Runs(l, s, steps)
    decreases |steps|
  {
    if steps == [] then s else After(l, Do(l, s, steps[0]), steps[1..])
  }

  lemma {:induction false} RunKeeps(l: Layout, s: State, steps: seq<Step>)
    requires Inv(l, s) && Runs(l, s, steps)
    ensures Inv(l, After(l, s, steps))
    decreases |steps|
  {
    if steps != [] {
      StepKeeps(l, s, steps[0]);
      RunKeeps(l, Do(l, s, steps[0]), steps[1..]);
    }
  }

  /** After any run, with any number of crashes in it, a process that has locked a buffer and
      read it in sees the latest contents of the block. */
  lemma ReadersSeeLatest(l: Layout, d: Disk, cache: Cache, steps: seq<Step>, p: Pid, i: nat)
    requires Fits(l, d) && HeadCount(l, d) == 0 && Settled(cache, d) && Runs(l, Boot(d, cache), steps)
    requires Owns(After(l, Boot(d, cache), steps), p, i)
    ensures var s := After(l, Boot(d, cache), steps);
            && s.cache.buf[i].blockno < |s.latest|
            && s.cache.buf[i].data == s.latest[s.cache.buf[i].blockno]
  {
    BootKeeps(l, d, cache);
    RunKeeps(l, Boot(d, cache), steps);
  }

  /** After any run a crash, followed by any number of crashes during recovery and then a
      recovery that completes, leaves exactly the durable home blocks. */
  lemma CrashesKeepDurable(l: Layout, d: Disk, cache: Cache, steps: seq<Step>, crashes: seq<nat>)
    requires Fits(l, d) && HeadCount(l, d) == 0 && Settled(cache, d) && Runs(l, Boot(d, cache), steps)
    ensures var s := After(l, Boot(d, cache), steps);
            Recoverable(l, s.disk, s.durable) && SameHome(l, AfterRecovery(l, s, crashes), s.durable)
  {
    hide Inv, Recoverable, SameHome, AfterRecovery, Settled, Boot, Do, Enabled;
    BootKeeps(l, d, cache);
    RunKeeps(l, Boot(d, cache), steps);
    RecoveryShowsDurable(l, After(l, Boot(d, cache), steps), crashes);
  }

  /** Durable blocks change only at the header write, all at once, to what readers see, and
      never while an operation is in progress. */
  lemma DurableChangesAtCommit(l: Layout, s: State, step: Step)
    requires Inv(l, s) && Enabled(l, s, step)
    ensures var s' := Do(l, s, step);
            match step
            case CommitHead(_, _) => SameHome(l, s'.durable, s.latest) && s.inTx == {}
            case Crash(_, _) => SameHome(l, s'.durable, s.durable)
            case _ => s'.durable == s.durable
  {
    hide Coherent, Head, HeadBlock, LocksOk, DurableOk, Choose;
    match step
    case CommitHead(p, i) => CommitSeesNoDirt(l, s);
    case Crash(crashes, cache) => CrashKeeps(l, s, crashes, cache);
    case _ =>
  }

  /** What install_trans copies home is what the block's readers see and what is durable. */
  lemma CopyHomeIsDurable(l: Layout, s: State, p: Pid, i: nat, j: nat)
    requires Inv(l, s) && CanCopyHome(l, s, p, i, j)
    ensures var b := s.lh[s.phase.tail];
            Home(l, |s.disk|, b) && s.cache.buf[i].data == s.latest[b] == s.durable[b] && Head(l, s.disk) == s.lh
  {
    assert l.start + 1 + s.phase.tail !in Pins(s.lh, s.phase);
    CommitterReads(l, s, i);
  }

  /** On disk a home block changes only when a committed transaction is installed. */
  lemma HomeWrittenOnlyAfterCommit(l: Layout, s: State, step: Step, b: nat)
    requires Inv(l, s) && Enabled(l, s, step) && !step.Crash? && Home(l, |s.disk|, b)
    ensures var s' := Do(l, s, step);
            && |s'.disk| == |s.disk| == |s.durable|
            && (s'.disk[b] != s.disk[b] ==>
                  step.CopyHome? && b in s.lh && Head(l, s.disk) == s.lh && s'.disk[b] == s.durable[b])
  {
    hide Coherent, Head, HeadBlock, LocksOk, DurableOk, Choose;
    match step
    case CopyHome(p, i, j) => CopyHomeIsDurable(l, s, p, i, j);
    case _ =>
  }

  predicate Locked(s: State, i: nat, b: nat) {
    i < |s.cache.buf| && i < |s.lock| && s.lock[i].Some? && s.cache.buf[i].blockno == b
  }

  /** What readers see of a home block changes only when an operation changes its buffer. */
  lemma LatestChangesOnlyByModify(l: Layout, s: State, step: Step, b: nat)
    requires Inv(l, s) && Enabled(l, s, step) && !step.Crash? && Home(l, |s.disk|, b)
    ensures var s' := Do(l, s, step);
            && |s'.latest| == |s.latest| == |s.disk|
            && (s'.latest[b] != s.latest[b] ==> step.Modify? && Locked(s, step.i, b))
  {
    hide Coherent, Head, HeadBlock, LocksOk, DurableOk, Choose;
    match step
    case CopyHome(p, i, j) => CopyHomeIsDurable(l, s, p, i, j);
    case _ =>
  }

  /** A buffer's reference count is its references plus one exactly when the log pins it. */
  lemma ReferencesCounted(l: Layout, s: State, i: nat)
    requires Inv(l, s) && i < NBUF
    ensures s.cache.buf[i].refcnt == |s.refs[i]| + if Pinned(s.cache.buf[i], Pins(s.lh, s.phase)) then 1 else 0
  {
    HeldAt(s.refs, i);
  }

  /** bget, the only step that gives buffers to blocks, never takes the buffer of a logged
      block, nor one that somebody references. */
  lemma LoggedBuffersStay(l: Layout, s: State, p: Pid, b: nat, i: nat)
    requires Inv(l, s) && CanGet(l, s, p, b) && i < NBUF
    requires Pinned(s.cache.buf[i], Pins(s.lh, s.phase)) || |s.refs[i]| > 0
    ensures DoGet(l, s, p, b).cache.buf[i] == s.cache.buf[i].(refcnt := DoGet(l, s, p, b).cache.buf[i].refcnt)
  {
    ReferencesCounted(l, s, i);
    ChooseSpec(s.cache, b);
  }

  // where bget panics

  /** At any moment of any run, bget finds no buffer exactly when the block is not cached and every
      buffer is referenced or pinned. */
  lemma StuckIff(l: Layout, s: State, b: nat)
    requires Inv(l, s)
    ensures Choose(s.cache, b).None? <==>
            forall i :: 0 <= i < NBUF ==>
              !Caches(s.cache.buf[i], b) && (s.refs[i] != multiset{} || Pinned(s.cache.buf[i], Pins(s.lh, s.phase)))
  {
    hide Coherent, Choose, LocksOk, LogOk, DurableOk, Pins;
    NoBufferIff(s.cache, UseOf(s), s.disk, b);
    forall i | 0 <= i < NBUF
      ensures Held(s.refs)[i] > 0 <==> s.refs[i] != multiset{}
    {
      HeldAt(s.refs, i);
    }
  }
}
