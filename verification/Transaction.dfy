/** Where the file system meets the log: an operation's changes, put block by block through the
    buffer cache and log_write, become a run of the storage layers, and a crash at any moment
    leaves either all of them or none. */
module Transaction {
  import opened Bytes
  import opened Params
  import opened Sets
  import opened Log
  import opened BufferCache
  import opened Coherence
  import opened LogRuns
  import R = Reservation
  import D = LogDevice
  import F = Files
  import V = Volume
  import T = Transfers
  import FS = FileSystem

  /** No process is using a buffer. */
  predicate Idle(s: State) {
    && s.dirty == {}
    && (forall i :: 0 <= i < |s.lock| ==> s.lock[i].None?)
    && (forall i :: 0 <= i < |s.refs| ==> s.refs[i] == multiset{})
  }

  /** Process p has locked the buffer of block b, and no other buffer is in use. */
  predicate UsesOnly(s: State, p: Pid, i: nat, b: nat) {
    && OwnsBlock(s, p, i, b) && |s.refs| == NBUF
    && (forall j :: 0 <= j < NBUF && j != i ==> s.lock[j].None? && s.refs[j] == multiset{})
    && s.refs[i] == multiset{p}
  }

  /** Everything but the buffers in use is the same. */
  predicate SameLog(s: State, s': State) {
    && s'.disk == s.disk && s'.lh == s.lh && s'.inTx == s.inTx && s'.latest == s.latest && s'.durable == s.durable
    && s'.phase == s.phase && s'.committer == s.committer && s'.dirty == s.dirty
  }

  // putting runs together

  lemma First(l: Layout, s: State, step: Step, rest: seq<Step>)
    requires Sane(s) && Enabled(l, s, step) && Runs(l, Do(l, s, step), rest)
    ensures Runs(l, s, [step] + rest) && After(l, s, [step] + rest) == After(l, Do(l, s, step), rest)
  {
    assert ([step] + rest)[1..] == rest;
  }

  lemma {:induction false} RunsThen(l: Layout, s: State, a: seq<Step>, b: seq<Step>)
    requires Runs(l, s, a) && Runs(l, After(l, s, a), b)
    ensures Runs(l, s, a + b) && After(l, s, a + b) == After(l, After(l, s, a), b)
    decreases |a|
  {
    hide Enabled, Do, Sane;
    if a == [] {
      assert a + b == b;
    } else {
      RunsThen(l, Do(l, s, a[0]), a[1..], b);
      assert (a + b)[1..] == a[1..] + b;
    }
  }

  lemma {:induction false} RunsPrefix(l: Layout, s: State, steps: seq<Step>, k: nat)
    requires Runs(l, s, steps) && k <= |steps|
    ensures Runs(l, s, steps[..k])
    decreases k
  {
    hide Enabled, Do, Sane;
    if k > 0 {
      RunsPrefix(l, Do(l, s, steps[0]), steps[1..], k - 1);
      assert steps[..k][1..] == steps[1..][..k - 1];
    }
  }

  // one block

  /** While no buffer is in use and the log has room, bget finds a buffer. */
  lemma CanRead(l: Layout, s: State, b: nat)
    requires Inv(l, s) && Idle(s) && s.phase.Quiet? && |s.lh| < NBUF
    ensures Choose(s.cache, b).Some?
  {
    hide Choose, LocksOk, DurableOk;
    StuckIff(l, s, b);
    if Choose(s.cache, b).None? {
      D.AllPinned(s.cache, Elements<nat>(s.lh));
      ElementsSize<nat>(s.lh);
    }
  }

  /** bread: bget, acquiresleep and the disk read. */
  lemma ReadsBlock(l: Layout, s: State, p: Pid, b: nat) returns (i: nat, steps: seq<Step>)
    requires Inv(l, s) && Idle(s) && s.phase.Quiet? && |s.lh| < NBUF && Home(l, |s.disk|, b)
    ensures steps == [Bget(p, b), Lock(p, i), ReadIn(p, i)] && Runs(l, s, steps)
    ensures var s' := After(l, s, steps); Inv(l, s') && UsesOnly(s', p, i, b) && SameLog(s, s')
  {
    hide Inv, Choose;
    InvSane(l, s);
    CanRead(l, s, b);
    ChooseSpec(s.cache, b);
    i := Choose(s.cache, b).value;
    var s1 := DoGet(l, s, p, b);
    GetKeeps(l, s, p, b);
    var s2 := DoLock(s1, p, i);
    LockKeeps(l, s1, p, i);
    var s3 := DoReadIn(s2, p, i);
    ReadInKeeps(l, s2, p, i);
    First(l, s2, ReadIn(p, i), []);
    First(l, s1, Lock(p, i), [ReadIn(p, i)]);
    First(l, s, Bget(p, b), [Lock(p, i), ReadIn(p, i)]);
    steps := [Bget(p, b)] + ([Lock(p, i)] + ([ReadIn(p, i)] + []));
  }

  lemma InvSane(l: Layout, s: State)
    requires Inv(l, s)
    ensures Sane(s) && |s.durable| == |s.disk| <= 0xFFFF_FFFF
    ensures |s.inTx| > 0 ==> s.phase.Quiet?
  {
  }

  /** What log_write has done to the log and to what readers see. */
  predicate Recorded(s: State, s': State, b: nat, data: Block) {
    && b < |s.latest| && s'.latest == s.latest[b := data] && s'.lh == (if b in s.lh then s.lh else s.lh + [b])
    && s'.disk == s.disk && s'.inTx == s.inTx && s'.durable == s.durable
    && s'.phase == s.phase && s'.committer == s.committer && s'.dirty == {}
  }

  /** Changing the locked buffer and log_write. */
  lemma RecordsBlock(l: Layout, s: State, p: Pid, i: nat, b: nat, data: Block) returns (steps: seq<Step>)
    requires Inv(l, s) && UsesOnly(s, p, i, b) && p in s.inTx && s.dirty == {} && Home(l, |s.disk|, b)
    requires |s.lh| < R.Limit(l.size)
    ensures steps == [Modify(p, i, data), LogWrite(p, i)] && Runs(l, s, steps)
    ensures var s' := After(l, s, steps); Inv(l, s') && UsesOnly(s', p, i, b) && Recorded(s, s', b, data)
  {
    hide Inv;
    InvSane(l, s);
    var s1 := DoModify(l, s, p, i, data);
    ModifyKeeps(l, s, p, i, data);
    var s2 := DoLogWrite(l, s1, p, i);
    LogWriteKeeps(l, s1, p, i);
    First(l, s1, LogWrite(p, i), []);
    First(l, s, Modify(p, i, data), [LogWrite(p, i)]);
    steps := [Modify(p, i, data)] + ([LogWrite(p, i)] + []);
  }

  /** brelse: releasesleep and the reference count. */
  lemma ReleasesBlock(l: Layout, s: State, p: Pid, i: nat, b: nat) returns (steps: seq<Step>)
    requires Inv(l, s) && UsesOnly(s, p, i, b) && s.dirty == {}
    ensures steps == [Unlock(p, i), Release(p, i)] && Runs(l, s, steps)
    ensures var s' := After(l, s, steps); Inv(l, s') && Idle(s') && SameLog(s, s')
  {
    hide Inv, ToFront, Home;
    InvSane(l, s);
    ReferencesCounted(l, s, i);
    var s1 := DoUnlock(s, p, i);
    UnlockKeeps(l, s, p, i);
    var s2 := DoRelease(s1, p, i);
    ReleaseKeeps(l, s1, p, i);
    First(l, s1, Release(p, i), []);
    First(l, s, Unlock(p, i), [Release(p, i)]);
    steps := [Unlock(p, i)] + ([Release(p, i)] + []);
  }

  /** An operation in progress, with the given number of log slots left to it. */
  ghost predicate Working(l: Layout, s: State, p: Pid, slots: nat) {
    Inv(l, s) && Idle(s) && p in s.inTx && |s.lh| + slots <= R.Limit(l.size)
  }

  /** Steps that no commit and no crash is part of, and that change no durable block. */
  predicate Uncommitted(steps: seq<Step>) {
    forall k :: 0 <= k < |steps| ==> !steps[k].CommitHead? && !steps[k].Crash?
  }

  /** bread, change, log_write, brelse: one block gets new contents. */
  lemma LogsBlock(l: Layout, s: State, p: Pid, slots: nat, b: nat, data: Block) returns (steps: seq<Step>)
    requires Working(l, s, p, slots) && slots > 0 && Home(l, |s.disk|, b)
    ensures Uncommitted(steps) && Runs(l, s, steps)
    ensures Working(l, After(l, s, steps), p, slots - 1) && Recorded(s, After(l, s, steps), b, data)
  {
    hide Inv, Enabled, Do, Sane, UsesOnly, Idle;
    var i, read, write, drop;
    InvSane(l, s);
    IdleClean(s);
    i, read := ReadsBlock(l, s, p, b);
    var s1 := After(l, s, read);
    write := RecordsBlock(l, s1, p, i, b, data);
    var s2 := After(l, s1, write);
    drop := ReleasesBlock(l, s2, p, i, b);
    RunsThen(l, s1, write, drop);
    RunsThen(l, s, read, write + drop);
    steps := read + (write + drop);
  }

  lemma IdleClean(s: State)
    requires Idle(s)
    ensures s.dirty == {}
  {
  }

  // all blocks of an operation

  /** The blocks outside the log area that still differ from d. */
  ghost function Differing(l: Layout, s: State, d: Disk): set<nat>
    requires |d| == |s.latest|
  {
    set b: nat | b < |d| && Home(l, |d|, b) && s.latest[b] != d[b]
  }

  lemma NothingDiffers(l: Layout, s: State, d: Disk)
    requires |d| == |s.latest| && Differing(l, s, d) == {}
    ensures SameHome(l, s.latest, d)
  {
    assert forall b: nat :: Home(l, |d|, b) && s.latest[b] != d[b] ==> b in Differing(l, s, d);
  }

  /** Logging each differing block once makes readers see d. */
  lemma {:induction false} LogsAll(l: Layout, s: State, p: Pid, slots: nat, d: Disk) returns (steps: seq<Step>)
    requires |d| == |s.latest| && Working(l, s, p, slots) && |Differing(l, s, d)| <= slots
    ensures Uncommitted(steps) && Runs(l, s, steps) && Working(l, After(l, s, steps), p, 0)
    ensures SameHome(l, After(l, s, steps).latest, d)
    decreases slots
  {
    hide Inv, Enabled, Do, Sane, Idle;
    InvSane(l, s);
    var todo := Differing(l, s, d);
    if todo == {} {
      NothingDiffers(l, s, d);
      return [];
    }
    var b :| b in todo;
    var one := LogsBlock(l, s, p, slots, b, d[b]);
    var s' := After(l, s, one);
    assert Differing(l, s', d) == todo - {b};
    var rest := LogsAll(l, s', p, slots - 1, d);
    RunsThen(l, s, one, rest);
    steps := one + rest;
  }

  // whole operations

  /** Readers see the volume d, whose first inode block follows the log. */
  ghost predicate Shows(l: Layout, sb: V.Super, s: State, d: Disk) {
    l.start + l.size <= sb.inodestart && SameHome(l, s.latest, d)
  }

  /** What an operation changed is what is left to log, and it is no more than the operation logged. */
  lemma ChangesAreLogged(l: Layout, sb: V.Super, s: State, d: Disk, d': Disk, logged: set<nat>)
    requires Shows(l, sb, s, d) && T.Covered(sb, d, d', logged)
    ensures |d'| == |s.latest| && |Differing(l, s, d')| <= |logged|
  {
    SubsetSize(Differing(l, s, d'), logged);
  }

  /** begin_op admits p, and its MAXOPBLOCKS slots are there. */
  ghost predicate Starts(l: Layout, s: State, p: Pid) {
    Inv(l, s) && Idle(s) && CanBegin(s, p) && |s.lh| + MAXOPBLOCKS <= R.Limit(l.size)
  }

  /** A file-system operation that changed the volume from d to d' and logged at most MAXOPBLOCKS
      blocks is a run from begin_op to end_op after which readers see d'. */
  lemma OperationRuns(l: Layout, sb: V.Super, s: State, p: Pid, d: Disk, d': Disk, logged: set<nat>)
    returns (steps: seq<Step>)
    requires Starts(l, s, p) && Shows(l, sb, s, d) && T.Covered(sb, d, d', logged) && |logged| <= MAXOPBLOCKS
    ensures Uncommitted(steps) && Runs(l, s, steps)
    ensures Inv(l, After(l, s, steps)) && Shows(l, sb, After(l, s, steps), d')
  {
    hide Inv, SameHome;
    InvSane(l, s);
    var s1 := DoBegin(s, p);
    BeginKeeps(l, s, p);
    ChangesAreLogged(l, sb, s, d, d', logged);
    assert Differing(l, s1, d') == Differing(l, s, d');
    var body := LogsAll(l, s1, p, MAXOPBLOCKS, d');
    var s2 := After(l, s1, body);
    EndKeeps(l, s2, p);
    InvSane(l, s2);
    First(l, s2, EndOp(p), []);
    RunsThen(l, s1, body, [EndOp(p)] + []);
    First(l, s, BeginOp(p), body + ([EndOp(p)] + []));
    steps := [BeginOp(p)] + (body + ([EndOp(p)] + []));
  }

  // all or nothing

  /** Until a commit or a crash, what a crash would leave stays the same. */
  lemma {:induction false} UncommittedKeepsDurable(l: Layout, s: State, steps: seq<Step>)
    requires Inv(l, s) && Runs(l, s, steps) && Uncommitted(steps)
    ensures After(l, s, steps).durable == s.durable
    decreases |steps|
  {
    hide Inv, Enabled, Do, Sane;
    if steps != [] {
      StepKeeps(l, s, steps[0]);
      DurableChangesAtCommit(l, s, steps[0]);
      UncommittedKeepsDurable(l, Do(l, s, steps[0]), steps[1..]);
    }
  }

  ghost predicate OneOf(l: Layout, d: Disk, d': Disk, x: Disk) {
    SameHome(l, x, d) || SameHome(l, x, d')
  }

  predicate Unmodified(steps: seq<Step>) {
    forall k :: 0 <= k < |steps| ==> !steps[k].Modify?
  }

  lemma OneOfSame(l: Layout, d: Disk, d': Disk, x: Disk, y: Disk)
    requires OneOf(l, d, d', x) && SameHome(l, y, x)
    ensures OneOf(l, d, d', y)
  {
  }

  /** A step that changes no buffer shows readers what they saw or, after a crash, what was durable. */
  lemma LatestComesFrom(l: Layout, s: State, step: Step)
    requires Inv(l, s) && Enabled(l, s, step) && !step.Modify?
    ensures SameHome(l, Do(l, s, step).latest, s.latest) || SameHome(l, Do(l, s, step).latest, s.durable)
  {
    hide Inv, Enabled, Do, SameHome;
    if step.Crash? {
      CrashShows(l, s, step);
    } else {
      LatestStays(l, s, step);
    }
  }

  lemma CrashShows(l: Layout, s: State, step: Step)
    requires Inv(l, s) && Enabled(l, s, step) && step.Crash?
    ensures SameHome(l, Do(l, s, step).latest, s.durable)
  {
    hide Inv, Recoverable, AfterCrashes, Recovered, Settled, SameHome;
    CrashKeeps(l, s, step.crashes, step.cache);
  }

  lemma LatestStays(l: Layout, s: State, step: Step)
    requires Inv(l, s) && Enabled(l, s, step) && !step.Modify? && !step.Crash?
    ensures SameHome(l, Do(l, s, step).latest, s.latest)
  {
    hide Inv, Enabled, Do;
    InvSane(l, s);
    LatestSize(l, s, step);
    var latest := Do(l, s, step).latest;
    forall b: nat | Home(l, |latest|, b)
      ensures latest[b] == s.latest[b]
    {
      LatestChangesOnlyByModify(l, s, step, b);
    }
  }

  lemma LatestSize(l: Layout, s: State, step: Step)
    requires Inv(l, s) && Enabled(l, s, step) && !step.Crash?
    ensures |Do(l, s, step).latest| == |s.latest| == |s.disk|
  {
    hide Coherent, Head, HeadBlock, LocksOk, DurableOk, Choose;
  }

  /** A step leaves the durable blocks alone or makes them what readers see. */
  lemma DurableComesFrom(l: Layout, s: State, step: Step)
    requires Inv(l, s) && Enabled(l, s, step)
    ensures SameHome(l, Do(l, s, step).durable, s.durable) || SameHome(l, Do(l, s, step).durable, s.latest)
  {
    hide Inv, Enabled, Do;
    DurableChangesAtCommit(l, s, step);
  }

  /** If readers and the durable blocks show d or d', any run that changes no buffer, with any number of
      commits and crashes in it, keeps them there. */
  lemma {:induction false} AllOrNothing(l: Layout, s: State, steps: seq<Step>, d: Disk, d': Disk)
    requires Inv(l, s) && Runs(l, s, steps) && Unmodified(steps)
    requires OneOf(l, d, d', s.latest) && OneOf(l, d, d', s.durable)
    ensures OneOf(l, d, d', After(l, s, steps).latest) && OneOf(l, d, d', After(l, s, steps).durable)
    decreases |steps|
  {
    hide Inv, Enabled, Do, Sane, OneOf, SameHome;
    if steps != [] {
      var s' := Do(l, s, steps[0]);
      StepKeeps(l, s, steps[0]);
      LatestComesFrom(l, s, steps[0]);
      OneOfSame(l, d, d', if SameHome(l, s'.latest, s.latest) then s.latest else s.durable, s'.latest);
      DurableComesFrom(l, s, steps[0]);
      OneOfSame(l, d, d', if SameHome(l, s'.durable, s.durable) then s.durable else s.latest, s'.durable);
      AllOrNothing(l, s', steps[1..], d, d');
    }
  }

  /** A crash between begin_op and end_op leaves nothing of the operation; one after end_op, at any
      later moment before another operation changes a buffer, leaves all of it or none. */
  lemma CrashIsAtomic(l: Layout, s: State, steps: seq<Step>, more: seq<Step>, k: nat, crashes: seq<nat>)
    requires Inv(l, s) && Runs(l, s, steps) && Uncommitted(steps) && k <= |steps|
    requires Runs(l, After(l, s, steps), more) && Unmodified(more)
    ensures Runs(l, s, steps[..k])
    ensures var cut := After(l, s, steps[..k]);
            Recoverable(l, cut.disk, cut.durable) && SameHome(l, AfterRecovery(l, cut, crashes), s.durable)
    ensures var done := After(l, s, steps);
            var cut := After(l, done, more);
            && Recoverable(l, cut.disk, cut.durable)
            && OneOf(l, s.durable, done.latest, AfterRecovery(l, cut, crashes))
  {
    hide Inv, Enabled, Do, Sane, OneOf, SameHome, Recoverable, AfterRecovery;
    RunsPrefix(l, s, steps, k);
    RunKeeps(l, s, steps[..k]);
    UncommittedKeepsDurable(l, s, steps[..k]);
    RecoveryShowsDurable(l, After(l, s, steps[..k]), crashes);
    var done := After(l, s, steps);
    RunKeeps(l, s, steps);
    UncommittedKeepsDurable(l, s, steps);
    Itself(l, s.durable, done.latest);
    AllOrNothing(l, done, more, s.durable, done.latest);
    var cut := After(l, done, more);
    RunKeeps(l, done, more);
    RecoveryShowsDurable(l, cut, crashes);
    OneOfSame(l, s.durable, done.latest, cut.durable, AfterRecovery(l, cut, crashes));
  }

  lemma Itself(l: Layout, d: Disk, d': Disk)
    ensures OneOf(l, d, d', d) && OneOf(l, d, d', d')
  {
  }

  /** writei between begin_op and end_op, with at most as many bytes as filewrite passes it: there is a run
      of the storage layers after which readers see what writei made of the volume. */
  method WriteOperation(fs: FS.Fs, i: nat, src: seq<byte>, off: word, n: word, l: Layout, ghost s: State, p: Pid)
    returns (r: int, ghost steps: seq<Step>)
    requires fs.Good() && i < |fs.inodes| && n <= T.MAXCHUNK
    requires Starts(l, s, p) && Shows(l, fs.sb, s, fs.data)
    modifies fs
    ensures fs.Good()
    ensures r == -1 <==> off > old(fs.inodes[i]).size || off + n > F.MAXBYTES
    ensures r != -1 ==> 0 <= r <= n && r <= |src| && T.Spliced(old(fs.View()), fs.View(), i, off, src[..r])
    ensures Uncommitted(steps) && Runs(l, s, steps)
    ensures Inv(l, After(l, s, steps)) && Shows(l, fs.sb, After(l, s, steps), fs.data)
  {
    hide Inv, Starts, Shows, T.Covered, T.Budget, T.Spliced;
    fs.logged := {};
    ghost var touched;
    r, touched := fs.Writei(i, src, off, n);
    T.WriteFits(off, n);
    SubsetSize(fs.logged, touched);
    steps := OperationRuns(l, fs.sb, s, p, old(fs.data), fs.data, fs.logged);
  }
}
