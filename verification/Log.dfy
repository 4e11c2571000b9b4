/** The on-disk redo log (kernel/log.c) seen as a sequence of single-block writes.
    A crash may fall between any two of them: memory is lost, the disk stays. */
module Log {
  import opened Bytes
  import opened Params
  import opened Sets

  type Disk = seq<Block>

  /** Where the log lives: a header block at `start`, then size - 1 log slots. */
  datatype Layout = Layout(start: nat, size: nat)

  predicate Fits<T>(l: Layout, d: seq<T>) {
    1 <= l.size && l.start + l.size <= |d| <= 0xFFFF_FFFF
  }

  /** Blocks outside the log area: the only ones a transaction may change. */
  predicate Home(l: Layout, blocks: nat, b: nat) {
    b < blocks && !(l.start <= b < l.start + l.size)
  }

  /** A list of logged block numbers that the header and the log slots have room for. */
  predicate Entries(l: Layout, blocks: nat, h: seq<nat>) {
    |h| <= LOGSIZE && |h| < l.size && Distinct(h) && forall i :: 0 <= i < |h| ==> Home(l, blocks, h[i])
  }

  function HeadCount(l: Layout, d: Disk): nat
    requires Fits(l, d)
  {
    Word(d[l.start], 0)
  }

  /** The block numbers in the first k entries of a header block. */
  function HeadWords(b: Block, k: nat): (r: seq<word>)
    requires k <= LOGSIZE
    ensures |r| == k
  {
    if k == 0 then [] else HeadWords(b, k - 1) + [Word(b, k)]
  }

  /** The block numbers named by the header on disk. */
  function Head(l: Layout, d: Disk): seq<word>
    requires Fits(l, d) && HeadCount(l, d) <= LOGSIZE
  {
    HeadWords(d[l.start], HeadCount(l, d))
  }

  /** The header on disk names a list of blocks that can be redone. */
  predicate HeadOk(l: Layout, d: Disk) {
    Fits(l, d) && HeadCount(l, d) <= LOGSIZE && Entries(l, |d|, Head(l, d))
  }

  /** write_head: the header block with n and the first n block numbers replaced. */
  function HeadBlock(b: Block, h: seq<word>): Block
    requires |h| <= LOGSIZE
  {
    PutWords(SetWord(b, 0, |h|), 1, h)
  }

  function WriteHead(l: Layout, d: Disk, h: seq<word>): (r: Disk)
    requires Fits(l, d) && |h| <= LOGSIZE
    ensures |r| == |d|
  {
    d[l.start := HeadBlock(d[l.start], h)]
  }

  /** install_trans: the disk after the first k logged blocks were copied home. */
  function Install<T>(l: Layout, d: seq<T>, h: seq<nat>, k: nat): (r: seq<T>)
    requires Fits(l, d) && Entries(l, |d|, h) && k <= |h|
    ensures |r| == |d|
  {
    if k == 0 then d
    else
      var p := Install(l, d, h, k - 1);
      p[h[k - 1] := p[l.start + k]]
  }

  /** write_log: the disk after the first k cached blocks were copied to their log slots. */
  function WriteLog<T>(l: Layout, d: seq<T>, data: seq<T>, k: nat): (r: seq<T>)
    requires Fits(l, d) && k <= |data| < l.size
    ensures |r| == |d|
  {
    if k == 0 then d
    else WriteLog(l, d, data, k - 1)[l.start + k := data[k - 1]]
  }

  /** The disk once recover_from_log has run to its end. */
  function Recovered(l: Layout, d: Disk): (r: Disk)
    requires HeadOk(l, d)
    ensures |r| == |d|
  {
    WriteHead(l, Install(l, d, Head(l, d), HeadCount(l, d)), [])
  }

  /** The disk after the first k block writes of recover_from_log. */
  function RecoverAfter(l: Layout, d: Disk, k: nat): (r: Disk)
    requires HeadOk(l, d)
    requires k <= HeadCount(l, d) + 1
    ensures |r| == |d|
  {
    if k <= HeadCount(l, d) then Install(l, d, Head(l, d), k) else Recovered(l, d)
  }

  /** The disk at the moment a commit's header write lands. */
  function Committed(l: Layout, d: Disk, h: seq<word>, data: seq<Block>): (r: Disk)
    requires Fits(l, d) && |h| <= LOGSIZE && |data| == |h| < l.size
    ensures |r| == |d|
  {
    WriteHead(l, WriteLog(l, d, data, |h|), h)
  }

  /** The disk after a whole commit. */
  function CommitEnd(l: Layout, d: Disk, h: seq<word>, data: seq<Block>): (r: Disk)
    requires Fits(l, d) && Entries(l, |d|, h) && |data| == |h|
    ensures |r| == |d|
  {
    WriteHead(l, Install(l, Committed(l, d, h, data), h, |h|), [])
  }

  /** The disk after the first k block writes of a commit of `data` to the blocks `h`. */
  function CommitAfter(l: Layout, d: Disk, h: seq<word>, data: seq<Block>, k: nat): (r: Disk)
    requires Fits(l, d) && Entries(l, |d|, h) && |data| == |h|
    requires k <= 2 * |h| + 2
    ensures |r| == |d|
  {
    if k <= |h| then WriteLog(l, d, data, k)
    else if k <= 2 * |h| + 1 then Install(l, Committed(l, d, h, data), h, k - |h| - 1)
    else CommitEnd(l, d, h, data)
  }

  /** The disk after each of the first k block writes of a commit. */
  function CommitTrace(l: Layout, d: Disk, h: seq<word>, data: seq<Block>, k: nat): (r: seq<Disk>)
    requires Fits(l, d) && Entries(l, |d|, h) && |data| == |h| && k <= 2 * |h| + 2
    ensures |r| == k
  {
    if k == 0 then [] else CommitTrace(l, d, h, data, k - 1) + [CommitAfter(l, d, h, data, k)]
  }

  /** The disk after each of the first k block writes of install_trans. */
  function InstallTrace(l: Layout, d: Disk, h: seq<nat>, k: nat): (r: seq<Disk>)
    requires Fits(l, d) && Entries(l, |d|, h) && k <= |h|
    ensures |r| == k
  {
    if k == 0 then [] else InstallTrace(l, d, h, k - 1) + [Install(l, d, h, k)]
  }

  /** The disk after each of the first k block writes of a recovery. */
  function RecoverTrace(l: Layout, d: Disk, k: nat): (r: seq<Disk>)
    requires HeadOk(l, d)
    requires k <= HeadCount(l, d) + 1
    ensures |r| == k
  {
    if k == 0 then [] else RecoverTrace(l, d, k - 1) + [RecoverAfter(l, d, k)]
  }

  /** What the transaction is meant to achieve: every logged block replaced at once. */
  function Apply<T>(d: seq<T>, h: seq<nat>, data: seq<T>): (r: seq<T>)
    requires |data| == |h| && forall i :: 0 <= i < |h| ==> h[i] < |d|
    ensures |r| == |d|
  {
    if h == [] then d
    else
      var n := |h| - 1;
      Apply(d, h[..n], data[..n])[h[n] := data[n]]
  }

  /** No transaction is pending and the home blocks are those of `target`. */
  ghost predicate Clean(l: Layout, d: Disk, target: Disk) {
    Fits(l, d) && HeadCount(l, d) == 0 && SameHome(l, d, target)
  }

  /** Copying the log slots of d to the blocks h yields the home blocks of `target`. */
  ghost predicate Redoes<T>(l: Layout, d: seq<T>, h: seq<nat>, target: seq<T>)
    requires Fits(l, d)
  {
    && |target| == |d|
    && Entries(l, |d|, h)
    && (forall i :: 0 <= i < |h| ==> target[h[i]] == d[l.start + 1 + i])
    && (forall b: nat :: Home(l, |d|, b) && b !in h ==> target[b] == d[b])
  }

  /** Recovering from d is bound to produce the home blocks of `target`. */
  ghost predicate Recoverable(l: Layout, d: Disk, target: Disk) {
    Fits(l, d) && HeadCount(l, d) <= LOGSIZE && Redoes(l, d, Head(l, d), target)
  }

  ghost predicate SameHome<T>(l: Layout, d: seq<T>, e: seq<T>) {
    |d| == |e| && forall b: nat :: Home(l, |d|, b) ==> d[b] == e[b]
  }

  lemma {:induction false} CommitTraceAt(l: Layout, d: Disk, h: seq<word>, data: seq<Block>, k: nat, i: nat)
    requires Fits(l, d) && Entries(l, |d|, h) && |data| == |h| && i < k <= 2 * |h| + 2
    ensures CommitTrace(l, d, h, data, k)[i] == CommitAfter(l, d, h, data, i + 1)
    decreases k
  {
    hide CommitAfter;
    if i < k - 1 {
      CommitTraceAt(l, d, h, data, k - 1, i);
    }
  }

  lemma CommitLogStep(l: Layout, d: Disk, h: seq<word>, data: seq<Block>, k: nat)
    requires Fits(l, d) && Entries(l, |d|, h) && |data| == |h| && 0 < k <= |h|
    ensures CommitTrace(l, d, h, data, k) == CommitTrace(l, d, h, data, k - 1) + [WriteLog(l, d, data, k)]
  {
  }

  /** A commit's writes are those of write_log, write_head, install_trans and write_head. */
  lemma {:induction false} CommitTraceInstall(l: Layout, d: Disk, h: seq<word>, data: seq<Block>, k: nat)
    requires Fits(l, d) && Entries(l, |d|, h) && |data| == |h| && k <= |h|
    ensures CommitTrace(l, d, h, data, |h| + 1 + k) ==
            CommitTrace(l, d, h, data, |h| + 1) + InstallTrace(l, Committed(l, d, h, data), h, k)
  {
    if k > 0 {
      CommitTraceInstall(l, d, h, data, k - 1);
    }
  }

  lemma CommitTraceWhole(l: Layout, d: Disk, h: seq<word>, data: seq<Block>)
    requires Fits(l, d) && Entries(l, |d|, h) && |data| == |h|
    ensures CommitTrace(l, d, h, data, 2 * |h| + 2) ==
            CommitTrace(l, d, h, data, |h|) + [Committed(l, d, h, data)]
            + InstallTrace(l, Committed(l, d, h, data), h, |h|) + [CommitEnd(l, d, h, data)]
  {
    hide Committed, CommitEnd;
    CommitTraceInstall(l, d, h, data, |h|);
    CommitTraceHead(l, d, h, data);
    assert CommitAfter(l, d, h, data, 2 * |h| + 2) == CommitEnd(l, d, h, data);
  }

  lemma CommitTraceHead(l: Layout, d: Disk, h: seq<word>, data: seq<Block>)
    requires Fits(l, d) && Entries(l, |d|, h) && |data| == |h|
    ensures CommitTrace(l, d, h, data, |h| + 1) == CommitTrace(l, d, h, data, |h|) + [Committed(l, d, h, data)]
  {
    assert CommitAfter(l, d, h, data, |h| + 1) == Committed(l, d, h, data);
  }

  lemma {:induction false} RecoverTraceAt(l: Layout, d: Disk, k: nat, i: nat)
    requires HeadOk(l, d) && i < k <= HeadCount(l, d) + 1
    ensures RecoverTrace(l, d, k)[i] == RecoverAfter(l, d, i + 1)
    decreases k
  {
    hide RecoverAfter, HeadOk;
    if i < k - 1 {
      RecoverTraceAt(l, d, k - 1, i);
    }
  }

  lemma {:induction false} RecoverTraceInstall(l: Layout, d: Disk, k: nat)
    requires HeadOk(l, d)
    requires k <= HeadCount(l, d)
    ensures RecoverTrace(l, d, k) == InstallTrace(l, d, Head(l, d), k)
  {
    if k > 0 {
      RecoverTraceInstall(l, d, k - 1);
    }
  }

  /** A recovery's writes are those of install_trans and write_head. */
  lemma RecoverTraceWhole(l: Layout, d: Disk)
    requires HeadOk(l, d)
    ensures RecoverTrace(l, d, HeadCount(l, d) + 1) ==
            InstallTrace(l, d, Head(l, d), HeadCount(l, d)) + [Recovered(l, d)]
  {
    hide Recovered, Word;
    RecoverTraceInstall(l, d, HeadCount(l, d));
    assert RecoverAfter(l, d, HeadCount(l, d) + 1) == Recovered(l, d);
  }

  lemma HeadBlockWord(b: Block, h: seq<word>, i: nat)
    requires |h| <= LOGSIZE && i <= |h|
    ensures Word(HeadBlock(b, h), i) == if i == 0 then |h| else h[i - 1]
  {
    WordSetWord(b, 0, |h|, 0);
    WordPutWords(SetWord(b, 0, |h|), 1, h, i);
  }

  lemma {:induction false} HeadWordsOfBlock(b: Block, h: seq<word>, k: nat)
    requires |h| <= LOGSIZE && k <= |h|
    ensures HeadWords(HeadBlock(b, h), k) == h[..k]
  {
    if k > 0 {
      HeadWordsOfBlock(b, h, k - 1);
      HeadBlockWord(b, h, k);
      assert h[..k] == h[..k - 1] + [h[k - 1]];
    }
  }

  /** read_head undoes write_head. */
  lemma HeadAfterWrite(l: Layout, d: Disk, h: seq<word>)
    requires Fits(l, d) && |h| <= LOGSIZE
    ensures HeadCount(l, WriteHead(l, d, h)) == |h|
    ensures Head(l, WriteHead(l, d, h)) == h
  {
    HeadBlockWord(d[l.start], h, 0);
    HeadWordsOfBlock(d[l.start], h, |h|);
    assert h[..|h|] == h;
  }

  lemma {:induction false} InstallAt<T>(l: Layout, d: seq<T>, h: seq<nat>, k: nat)
    requires Fits(l, d) && Entries(l, |d|, h) && k <= |h|
    ensures forall i :: 0 <= i < k ==> Install(l, d, h, k)[h[i]] == d[l.start + 1 + i]
    ensures forall b :: 0 <= b < |d| && b !in h[..k] ==> Install(l, d, h, k)[b] == d[b]
  {
    if k > 0 {
      InstallAt(l, d, h, k - 1);
      assert h[..k] == h[..k - 1] + [h[k - 1]];
      assert l.start + k !in h[..k - 1];
    }
  }

  lemma {:induction false} WriteLogAt<T>(l: Layout, d: seq<T>, data: seq<T>, k: nat)
    requires Fits(l, d) && k <= |data| < l.size
    ensures forall i :: 0 <= i < k ==> WriteLog(l, d, data, k)[l.start + 1 + i] == data[i]
    ensures forall b :: 0 <= b < |d| && !(l.start < b <= l.start + k) ==> WriteLog(l, d, data, k)[b] == d[b]
  {
    if k > 0 {
      WriteLogAt(l, d, data, k - 1);
    }
  }

  lemma {:induction false} ApplyAt<T>(d: seq<T>, h: seq<nat>, data: seq<T>)
    requires |data| == |h| && Distinct(h) && forall i :: 0 <= i < |h| ==> h[i] < |d|
    ensures forall i :: 0 <= i < |h| ==> Apply(d, h, data)[h[i]] == data[i]
    ensures forall b :: 0 <= b < |d| && b !in h ==> Apply(d, h, data)[b] == d[b]
  {
    if h != [] {
      var n := |h| - 1;
      var p := Apply(d, h[..n], data[..n]);
      ApplyAt(d, h[..n], data[..n]);
      forall i | 0 <= i < |h|
        ensures Apply(d, h, data)[h[i]] == data[i]
      {
        if i < n { assert p[h[..n][i]] == data[..n][i]; }
      }
      forall b | 0 <= b < |d| && b !in h
        ensures Apply(d, h, data)[b] == d[b]
      {
        assert b !in h[..n];
      }
    }
  }

  /** Copying any prefix of the log home leaves the outcome of a redo as it was. */
  lemma RedoesInstall<T>(l: Layout, d: seq<T>, h: seq<nat>, target: seq<T>, k: nat)
    requires Fits(l, d) && Redoes(l, d, h, target) && k <= |h|
    ensures Redoes(l, Install(l, d, h, k), h, target)
    ensures Install(l, d, h, k)[l.start] == d[l.start]
  {
    InstallAt(l, d, h, k);
    assert forall b: nat :: b in h ==> Home(l, |d|, b);
  }

  /** After a full install the log is no longer needed: any header may be written. */
  lemma RedoesErase<T>(l: Layout, d: seq<T>, h: seq<nat>, target: seq<T>, head: T)
    requires Fits(l, d) && Redoes(l, d, h, target)
    ensures var e := Install(l, d, h, |h|)[l.start := head];
            Redoes(l, e, [], target) && SameHome(l, e, target)
  {
    InstallAt(l, d, h, |h|);
    assert h[..|h|] == h;
    var e := Install(l, d, h, |h|)[l.start := head];
    forall b: nat | Home(l, |d|, b)
      ensures e[b] == target[b]
    {
      if b in h {
        var i :| 0 <= i < |h| && h[i] == b;
      }
    }
  }

  lemma CommitSlot<T>(l: Layout, d: seq<T>, h: seq<nat>, data: seq<T>, head: T, i: nat)
    requires Fits(l, d) && Entries(l, |d|, h) && |data| == |h| && i < |h|
    ensures Apply(d, h, data)[h[i]] == WriteLog(l, d, data, |h|)[l.start := head][l.start + 1 + i]
  {
    WriteLogAt(l, d, data, |h|);
    ApplyAt(d, h, data);
    assert Apply(d, h, data)[h[i]] == data[i];
  }

  lemma CommitOther<T>(l: Layout, d: seq<T>, h: seq<nat>, data: seq<T>, head: T, b: nat)
    requires Fits(l, d) && Entries(l, |d|, h) && |data| == |h|
    requires Home(l, |d|, b) && b !in h
    ensures Apply(d, h, data)[b] == WriteLog(l, d, data, |h|)[l.start := head][b]
  {
    WriteLogAt(l, d, data, |h|);
    ApplyAt(d, h, data);
    assert Apply(d, h, data)[b] == d[b];
  }

  lemma CommitSlots<T>(l: Layout, d: seq<T>, h: seq<nat>, data: seq<T>, head: T)
    requires Fits(l, d) && Entries(l, |d|, h) && |data| == |h|
    ensures forall i :: 0 <= i < |h| ==>
              Apply(d, h, data)[h[i]] == WriteLog(l, d, data, |h|)[l.start := head][l.start + 1 + i]
  {
    hide WriteLog, Apply, Distinct;
    forall i | 0 <= i < |h|
      ensures Apply(d, h, data)[h[i]] == WriteLog(l, d, data, |h|)[l.start := head][l.start + 1 + i]
    {
      CommitSlot(l, d, h, data, head, i);
    }
  }

  lemma CommitOthers<T>(l: Layout, d: seq<T>, h: seq<nat>, data: seq<T>, head: T)
    requires Fits(l, d) && Entries(l, |d|, h) && |data| == |h|
    ensures forall b: nat :: Home(l, |d|, b) && b !in h ==>
              Apply(d, h, data)[b] == WriteLog(l, d, data, |h|)[l.start := head][b]
  {
    hide WriteLog, Apply, Distinct;
    forall b: nat | Home(l, |d|, b) && b !in h
      ensures Apply(d, h, data)[b] == WriteLog(l, d, data, |h|)[l.start := head][b]
    {
      CommitOther(l, d, h, data, head, b);
    }
  }

  /** With the log slots filled, redoing them performs the transaction. */
  lemma RedoesCommit<T>(l: Layout, d: seq<T>, h: seq<nat>, data: seq<T>, head: T)
    requires Fits(l, d) && Entries(l, |d|, h) && |data| == |h|
    ensures Redoes(l, WriteLog(l, d, data, |h|)[l.start := head], h, Apply(d, h, data))
  {
    hide WriteLog, Apply, Redoes;
    CommitSlots(l, d, h, data, head);
    CommitOthers(l, d, h, data, head);
    RedoesIf(l, WriteLog(l, d, data, |h|)[l.start := head], h, Apply(d, h, data));
  }

  lemma RedoesIf<T>(l: Layout, d: seq<T>, h: seq<nat>, target: seq<T>)
    requires Fits(l, d) && |target| == |d| && Entries(l, |d|, h)
    requires forall i :: 0 <= i < |h| ==> target[h[i]] == d[l.start + 1 + i]
    requires forall b: nat :: Home(l, |d|, b) && b !in h ==> target[b] == d[b]
    ensures Redoes(l, d, h, target)
  {
  }

  lemma RecoveredIsErased(l: Layout, d: Disk)
    requires HeadOk(l, d)
    ensures HeadCount(l, Recovered(l, d)) == 0 && Head(l, Recovered(l, d)) == []
  {
    HeadAfterWrite(l, Install(l, d, Head(l, d), HeadCount(l, d)), []);
  }

  lemma RecoveredRedoes(l: Layout, d: Disk, target: Disk)
    requires Recoverable(l, d, target)
    ensures Redoes(l, Recovered(l, d), [], target) && SameHome(l, Recovered(l, d), target)
  {
    var c := Install(l, d, Head(l, d), HeadCount(l, d));
    RedoesErase(l, d, Head(l, d), target, HeadBlock(c[l.start], []));
  }

  /** Recovery that runs to its end leaves an empty log and the target's home blocks. */
  lemma RecoveryCompletes(l: Layout, d: Disk, target: Disk)
    requires Recoverable(l, d, target)
    ensures Clean(l, Recovered(l, d), target) && Recoverable(l, Recovered(l, d), target)
  {
    hide SameHome, Recovered;
    RecoveredIsErased(l, d);
    RecoveredRedoes(l, d, target);
  }

  /** A crash after any number of writes of recovery changes nothing about its outcome. */
  lemma RecoverAfterRecoverable(l: Layout, d: Disk, target: Disk, k: nat)
    requires Recoverable(l, d, target) && k <= HeadCount(l, d) + 1
    ensures Recoverable(l, RecoverAfter(l, d, k), target)
    ensures k == HeadCount(l, d) + 1 ==> Clean(l, RecoverAfter(l, d, k), target)
  {
    if k <= HeadCount(l, d) {
      RedoesInstall(l, d, Head(l, d), target, k);
    } else {
      RecoveryCompletes(l, d, target);
    }
  }

  /** The disk after a series of boots, the i-th of which crashed after crashes[i] writes
      of recovery (or later, when recovery was already done). */
  ghost function AfterCrashes(l: Layout, d: Disk, target: Disk, crashes: seq<nat>): (r: Disk)
    requires Recoverable(l, d, target)
    ensures Recoverable(l, r, target)
    decreases |crashes|
  {
    if crashes == [] then d
    else
      var k := if crashes[0] <= HeadCount(l, d) + 1 then crashes[0] else HeadCount(l, d) + 1;
      RecoverAfterRecoverable(l, d, target, k);
      AfterCrashes(l, RecoverAfter(l, d, k), target, crashes[1..])
  }

  /** Once recovery runs to its end, after any number of crashes during earlier attempts,
      the home blocks are exactly those of the target and the log is empty. */
  lemma RecoveryReaches(l: Layout, d: Disk, target: Disk, crashes: seq<nat>)
    requires Recoverable(l, d, target)
    ensures Clean(l, Recovered(l, AfterCrashes(l, d, target, crashes)), target)
  {
    RecoveryCompletes(l, AfterCrashes(l, d, target, crashes), target);
  }

  /** Before the header write lands, a commit's disk still recovers to the old blocks. */
  lemma CommitBeforeHead(l: Layout, d: Disk, h: seq<word>, data: seq<Block>, k: nat)
    requires Fits(l, d) && Entries(l, |d|, h) && |data| == |h| && k <= |h|
    requires HeadCount(l, d) == 0
    ensures Recoverable(l, CommitAfter(l, d, h, data, k), d)
  {
    WriteLogAt(l, d, data, k);
  }

  /** The single header write makes the whole transaction the outcome of recovery. */
  lemma HeadWriteCommits(l: Layout, d: Disk, h: seq<word>, data: seq<Block>)
    requires Fits(l, d) && Entries(l, |d|, h) && |data| == |h|
    ensures Recoverable(l, Committed(l, d, h, data), Apply(d, h, data))
    ensures Head(l, Committed(l, d, h, data)) == h
  {
    var w := WriteLog(l, d, data, |h|);
    HeadAfterWrite(l, w, h);
    RedoesCommit(l, d, h, data, HeadBlock(w[l.start], h));
  }

  /** From the header write on, a commit's disk recovers to the new blocks. */
  lemma CommitAfterHead(l: Layout, d: Disk, h: seq<word>, data: seq<Block>, k: nat)
    requires Fits(l, d) && Entries(l, |d|, h) && |data| == |h| && |h| < k <= 2 * |h| + 2
    ensures Recoverable(l, CommitAfter(l, d, h, data, k), Apply(d, h, data))
    ensures k == 2 * |h| + 2 ==> Clean(l, CommitAfter(l, d, h, data, k), Apply(d, h, data))
  {
    hide SameHome, HeadWords, WriteHead, HeadBlock, Word, Apply, Redoes, WriteLog;
    HeadWriteCommits(l, d, h, data);
    RecoverAfterRecoverable(l, Committed(l, d, h, data), Apply(d, h, data), k - |h| - 1);
  }

  /** Crash atomicity: stop a commit after any k of its block writes, then crash recovery any
      number of times; a recovery that completes leaves every home block at its old contents
      if the header write had not landed, and every home block at its new contents if it had. */
  lemma CommitIsAtomic(l: Layout, d: Disk, h: seq<word>, data: seq<Block>, k: nat, crashes: seq<nat>)
    requires Fits(l, d) && HeadCount(l, d) == 0
    requires Entries(l, |d|, h) && |data| == |h| && k <= 2 * |h| + 2
    ensures var outcome := if k <= |h| then d else Apply(d, h, data);
            var c := CommitAfter(l, d, h, data, k);
            && Recoverable(l, c, outcome)
            && Clean(l, Recovered(l, AfterCrashes(l, c, outcome, crashes)), outcome)
  {
    hide Redoes, SameHome, HeadCount, Head, Recovered, Apply, AfterCrashes;
    var outcome := if k <= |h| then d else Apply(d, h, data);
    if k <= |h| {
      CommitBeforeHead(l, d, h, data, k);
    } else {
      CommitAfterHead(l, d, h, data, k);
    }
    RecoveryReaches(l, CommitAfter(l, d, h, data, k), outcome, crashes);
  }
}
