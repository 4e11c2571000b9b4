/** Space in the log (kernel/log.c): begin_op admits an operation only if every admitted one
    could still add MAXOPBLOCKS blocks; log_write panics when the log looks full. */
module Reservation {
  import opened Params
  import opened Sets

  type Pid = nat

  /** The in-memory log: logged block numbers and the counters guarded by log.lock. */
  datatype LogState = LogState(size: int, blocks: seq<nat>, outstanding: nat, committing: bool)

  /** begin_op goes ahead; otherwise it sleeps. */
  predicate Admits(s: LogState) {
    !s.committing && |s.blocks| + (s.outstanding + 1) * MAXOPBLOCKS <= LOGSIZE
  }

  function Begin(s: LogState): LogState {
    s.(outstanding := s.outstanding + 1)
  }

  /** log_write's test, made before it looks for the block in the log. */
  predicate TooBig(s: LogState) {
    |s.blocks| >= LOGSIZE || |s.blocks| >= s.size - 1
  }

  /** log_write's absorption: a block already logged takes no new slot. */
  function Absorb(s: LogState, b: nat): LogState {
    if b in s.blocks then s else s.(blocks := s.blocks + [b])
  }

  /** end_op: the last operation to end starts the commit. */
  function End(s: LogState): LogState
    requires s.outstanding > 0
  {
    s.(outstanding := s.outstanding - 1, committing := s.outstanding == 1)
  }

  /** What operations keep to: at most `most` new blocks each, or at most `most` calls. */
  datatype Charge = PerBlock(most: nat) | PerCall(most: nat)

  /** begin_op reserves MAXOPBLOCKS blocks, so operations must not need more. */
  predicate Kept(how: Charge) {
    1 <= how.most <= MAXOPBLOCKS
  }

  /** The log, and what each active operation may still spend. */
  datatype State = State(log: LogState, budget: map<Pid, nat>)

  datatype Step = BeginOp(p: Pid) | LogWrite(p: Pid, b: nat) | EndOp(p: Pid) | Commit

  function Cost(how: Charge, s: LogState, b: nat): nat {
    if how.PerBlock? && b in s.blocks then 0 else 1
  }

  predicate Enabled(how: Charge, s: State, step: Step) {
    match step
    case BeginOp(p) => p !in s.budget && Admits(s.log)
    case LogWrite(p, b) => p in s.budget && Cost(how, s.log, b) <= s.budget[p]
    case EndOp(p) => p in s.budget && s.log.outstanding > 0
    case Commit => s.log.committing
  }

  /** log_write and end_op panic in these states. */
  predicate Panics(s: State, step: Step) {
    match step
    case LogWrite(p, b) => TooBig(s.log) || s.log.outstanding < 1
    case EndOp(p) => s.log.committing
    case _ => false
  }

  function Do(how: Charge, s: State, step: Step): State
    requires Enabled(how, s, step)
  {
    match step
    case BeginOp(p) => State(Begin(s.log), s.budget[p := how.most])
    case LogWrite(p, b) => State(Absorb(s.log, b), s.budget[p := s.budget[p] - Cost(how, s.log, b)])
    case EndOp(p) => State(End(s.log), s.budget - {p})
    case Commit => s.(log := s.log.(blocks := [], committing := false))
  }

  /** A run from the empty log: each step is allowed and none panics. */
  predicate Runs(how: Charge, s: State, steps: seq<Step>)
    decreases |steps|
  {
    steps == [] || (Enabled(how, s, steps[0]) && !Panics(s, steps[0]) && Runs(how, Do(how, s, steps[0]), steps[1..]))
  }

  function After(how: Charge, s: State, steps: seq<Step>): State
    requires Runs(how, s, steps)
    decreases |steps|
  {
    if steps == [] then s else After(how, Do(how, s, steps[0]), steps[1..])
  }

  function Init(size: int): State {
    State(LogState(size, [], 0, false), map[])
  }

  /** The sum of all unspent budgets. */
  ghost function Unspent(m: map<Pid, nat>): nat
    decreases m.Keys
  {
    if m.Keys == {} then 0
    else
      var p :| p in m.Keys;
      m[p] + Unspent(m - {p})
  }

  lemma {:induction false} UnspentSplit(m: map<Pid, nat>, p: Pid)
    requires p in m
    ensures Unspent(m) == m[p] + Unspent(m - {p})
    decreases m.Keys
  {
    var q :| q in m.Keys && Unspent(m) == m[q] + Unspent(m - {q});
    if q != p {
      UnspentSplit(m - {q}, p);
      UnspentSplit(m - {p}, q);
      assert m - {q} - {p} == m - {p} - {q};
    }
  }

  lemma UnspentUpdate(m: map<Pid, nat>, p: Pid, v: nat)
    ensures Unspent(m[p := v]) == v + Unspent(m - {p})
  {
    UnspentSplit(m[p := v], p);
    assert m[p := v] - {p} == m - {p};
  }

  lemma {:induction false} UnspentBound(m: map<Pid, nat>, most: nat)
    requires forall p :: p in m ==> m[p] <= most
    ensures Unspent(m) <= most * |m|
    decreases m.Keys
  {
    if m.Keys != {} {
      var p :| p in m.Keys;
      UnspentSplit(m, p);
      UnspentBound(m - {p}, most);
      SizeWithout(m, p);
      OneMore(most, |m - {p}|, |m|);
    }
  }

  lemma OneMore(most: nat, n: nat, m: nat)
    requires m == n + 1
    ensures most * m == most * n + most
  {
  }

  lemma SizeWithout(m: map<Pid, nat>, p: Pid)
    requires p in m
    ensures |m| == |m - {p}| + 1
  {
    assert (m - {p}).Keys == m.Keys - {p};
  }

  lemma SizeWith(m: map<Pid, nat>, p: Pid, v: nat)
    ensures |m[p := v]| == if p in m then |m| else |m| + 1
  {
    assert m[p := v].Keys == m.Keys + {p};
  }

  /** The most blocks that can be in the log. An operation that is admitted while others are active
      leaves the unused part of at least two reservations. */
  function Peak(how: Charge): int {
    LOGSIZE - 2 * (MAXOPBLOCKS - how.most)
  }

  /** The reservation invariant. */
  ghost predicate Inv(how: Charge, s: State) {
    && s.log.outstanding == |s.budget|
    && (forall p :: p in s.budget ==> s.budget[p] <= how.most)
    && |s.log.blocks| + Unspent(s.budget) <= Peak(how)
    && Distinct(s.log.blocks)
    && (s.log.committing ==> s.budget == map[])
    && (s.budget == map[] && !s.log.committing ==> s.log.blocks == [])
  }

  lemma BeginKeepsInv(how: Charge, s: State, p: Pid)
    requires Kept(how) && Inv(how, s) && Enabled(how, s, BeginOp(p))
    ensures Inv(how, Do(how, s, BeginOp(p)))
  {
    hide Distinct;
    UnspentUpdate(s.budget, p, how.most);
    assert s.budget - {p} == s.budget;
    SizeWith(s.budget, p, how.most);
    Reserved(how, s, p);
  }

  lemma Reserved(how: Charge, s: State, p: Pid)
    requires Kept(how) && Inv(how, s) && Enabled(how, s, BeginOp(p))
    ensures |s.log.blocks| + Unspent(s.budget) + how.most <= Peak(how)
  {
    hide Distinct;
    if s.budget == map[] {
      assert Unspent(s.budget) == 0;
    } else {
      var q :| q in s.budget;
      SizeWithout(s.budget, q);
      UnspentBound(s.budget, how.most);
      TwoReservations(|s.log.blocks|, |s.budget|, how.most, Unspent(s.budget));
    }
  }

  lemma TwoReservations(blocks: nat, n: nat, most: nat, unspent: nat)
    requires n >= 1 && most <= MAXOPBLOCKS && unspent <= most * n && blocks + (n + 1) * MAXOPBLOCKS <= LOGSIZE
    ensures blocks + unspent + most <= LOGSIZE - 2 * (MAXOPBLOCKS - most)
  {
    assert n == 1 || n == 2;
  }

  lemma LogWriteKeepsInv(how: Charge, s: State, p: Pid, b: nat)
    requires Inv(how, s) && Enabled(how, s, LogWrite(p, b))
    ensures Inv(how, Do(how, s, LogWrite(p, b)))
  {
    var left := s.budget[p] - Cost(how, s.log, b);
    UnspentUpdate(s.budget, p, left);
    UnspentSplit(s.budget, p);
    SizeWith(s.budget, p, left);
  }

  lemma EndKeepsInv(how: Charge, s: State, p: Pid)
    requires Inv(how, s) && Enabled(how, s, EndOp(p))
    ensures Inv(how, Do(how, s, EndOp(p)))
  {
    UnspentSplit(s.budget, p);
    SizeWithout(s.budget, p);
  }

  lemma StepKeepsInv(how: Charge, s: State, step: Step)
    requires Kept(how) && Inv(how, s) && Enabled(how, s, step)
    ensures Inv(how, Do(how, s, step))
  {
    match step
    case BeginOp(p) => BeginKeepsInv(how, s, p);
    case LogWrite(p, b) => LogWriteKeepsInv(how, s, p, b);
    case EndOp(p) => EndKeepsInv(how, s, p);
    case Commit =>
  }

  /** In every run the logged blocks plus the unspent budgets fit the log, no block is logged
      twice, and a commit is under way only when no operation is active. */
  lemma {:induction false} ReservationHolds(how: Charge, s: State, steps: seq<Step>)
    requires Kept(how) && Inv(how, s) && Runs(how, s, steps)
    ensures Inv(how, After(how, s, steps))
    decreases |steps|
  {
    if steps != [] {
      StepKeepsInv(how, s, steps[0]);
      ReservationHolds(how, Do(how, s, steps[0]), steps[1..]);
    }
  }

  /** No run of any length makes end_op panic with "log.committing". */
  lemma EndNeverPanics(how: Charge, size: int, steps: seq<Step>, p: Pid)
    requires Kept(how) && Runs(how, Init(size), steps)
    requires Enabled(how, After(how, Init(size), steps), EndOp(p))
    ensures !Panics(After(how, Init(size), steps), EndOp(p))
  {
    ReservationHolds(how, Init(size), steps);
  }

  /** The blocks at which log_write refuses. */
  function Limit(size: int): int {
    if size - 1 < LOGSIZE then size - 1 else LOGSIZE
  }

  /** The most blocks that log_write can find in the log. */
  function Reach(how: Charge): int {
    if how.PerBlock? then Peak(how) else Peak(how) - 1
  }

  lemma RoomNeverPanics(how: Charge, size: int, steps: seq<Step>, p: Pid, b: nat)
    requires Kept(how) && Reach(how) < Limit(size)
    requires Runs(how, Init(size), steps)
    requires Enabled(how, After(how, Init(size), steps), LogWrite(p, b))
    ensures !Panics(After(how, Init(size), steps), LogWrite(p, b))
  {
    ReservationHolds(how, Init(size), steps);
    var s := After(how, Init(size), steps);
    UnspentSplit(s.budget, p);
    SizeIsConstant(how, Init(size), steps);
    SizeWithout(s.budget, p);
  }

  lemma {:induction false} SizeIsConstant(how: Charge, s: State, steps: seq<Step>)
    requires Runs(how, s, steps)
    ensures After(how, s, steps).log.size == s.log.size
    decreases |steps|
  {
    if steps != [] {
      SizeIsConstant(how, Do(how, s, steps[0]), steps[1..]);
    }
  }

  lemma {:induction false} RunsAppend(how: Charge, s: State, steps: seq<Step>, step: Step)
    requires Runs(how, s, steps)
    requires Enabled(how, After(how, s, steps), step) && !Panics(After(how, s, steps), step)
    ensures Runs(how, s, steps + [step])
    ensures After(how, s, steps + [step]) == Do(how, After(how, s, steps), step)
    decreases |steps|
  {
    if steps == [] {
      assert steps + [step] == [step];
      assert [step][1..] == [];
    } else {
      RunsAppend(how, Do(how, s, steps[0]), steps[1..], step);
      assert (steps + [step])[1..] == steps[1..] + [step];
    }
  }

  // a run that fills the log as far as possible

  function Numbers(k: nat): (r: seq<nat>)
    ensures |r| == k && forall i :: 0 <= i < k ==> r[i] == i
  {
    if k == 0 then [] else Numbers(k - 1) + [k - 1]
  }

  /** Operation 0 is active and has logged nothing; others have logged k blocks and ended. */
  function Early(how: Charge, size: int, k: nat): State {
    State(LogState(size, Numbers(k), 1, false), map[0 := how.most])
  }

  /** Operations 0 and 1 are active and have logged j blocks after the first MAXOPBLOCKS. */
  function Late(how: Charge, size: int, j: nat): State
    requires j <= 2 * how.most
  {
    State(LogState(size, Numbers(MAXOPBLOCKS + j), 2, false),
          map[0 := if j < how.most then how.most - j else 0, 1 := if j < how.most then how.most else 2 * how.most - j])
  }

  lemma NewBlock(k: nat)
    ensures k !in Numbers(k) && Numbers(k) + [k] == Numbers(k + 1)
  {
  }

  lemma {:induction false} RunEarly(how: Charge, size: int, k: nat) returns (steps: seq<Step>)
    requires Kept(how) && k <= MAXOPBLOCKS && (k > 0 ==> k <= Limit(size))
    ensures Runs(how, Init(size), steps) && After(how, Init(size), steps) == Early(how, size, k)
    decreases k
  {
    var s0 := Init(size);
    if k == 0 {
      RunsAppend(how, s0, [], BeginOp(0));
      steps := [] + [BeginOp(0)];
      assert map[][0 := how.most] == map[0 := how.most];
    } else {
      var first := RunEarly(how, size, k - 1);
      EarlySteps(how, size, k - 1);
      hide Do, Enabled, Panics, Early;
      RunsAppend(how, s0, first, BeginOp(1));
      RunsAppend(how, s0, first + [BeginOp(1)], LogWrite(1, k - 1));
      RunsAppend(how, s0, first + [BeginOp(1)] + [LogWrite(1, k - 1)], EndOp(1));
      steps := first + [BeginOp(1)] + [LogWrite(1, k - 1)] + [EndOp(1)];
    }
  }

  /** Another operation begins, logs block k and ends. */
  lemma EarlySteps(how: Charge, size: int, k: nat)
    requires Kept(how) && k < MAXOPBLOCKS && k < Limit(size)
    ensures var s := Early(how, size, k);
            && Enabled(how, s, BeginOp(1)) && !Panics(s, BeginOp(1))
            && var s1 := Do(how, s, BeginOp(1));
            && Enabled(how, s1, LogWrite(1, k)) && !Panics(s1, LogWrite(1, k))
            && var s2 := Do(how, s1, LogWrite(1, k));
            && Enabled(how, s2, EndOp(1)) && !Panics(s2, EndOp(1)) && Do(how, s2, EndOp(1)) == Early(how, size, k + 1)
  {
    NewBlock(k);
    var s1 := Do(how, Early(how, size, k), BeginOp(1));
    assert s1.budget == map[0 := how.most, 1 := how.most];
    var s2 := Do(how, s1, LogWrite(1, k));
    assert s2.budget == map[0 := how.most, 1 := how.most - 1];
    assert s2.budget - {1} == map[0 := how.most];
  }

  lemma LateStep(how: Charge, size: int, j: nat)
    requires Kept(how) && j < 2 * how.most
    ensures var step := LogWrite(if j < how.most then 0 else 1, MAXOPBLOCKS + j);
            Enabled(how, Late(how, size, j), step) && Do(how, Late(how, size, j), step) == Late(how, size, j + 1)
  {
    NewBlock(MAXOPBLOCKS + j);
    var p := if j < how.most then 0 else 1;
    assert Do(how, Late(how, size, j), LogWrite(p, MAXOPBLOCKS + j)).budget == Late(how, size, j + 1).budget;
  }

  lemma {:induction false} RunLate(how: Charge, size: int, j: nat) returns (steps: seq<Step>)
    requires Kept(how) && j <= 2 * how.most && MAXOPBLOCKS + j <= Limit(size)
    ensures Runs(how, Init(size), steps) && After(how, Init(size), steps) == Late(how, size, j)
    decreases j
  {
    if j == 0 {
      var first := RunEarly(how, size, MAXOPBLOCKS);
      RunsAppend(how, Init(size), first, BeginOp(1));
      steps := first + [BeginOp(1)];
      assert map[0 := how.most][1 := how.most] == Late(how, size, 0).budget;
    } else {
      var first := RunLate(how, size, j - 1);
      LateStep(how, size, j - 1);
      var step := LogWrite(if j - 1 < how.most then 0 else 1, MAXOPBLOCKS + j - 1);
      RunsAppend(how, Init(size), first, step);
      steps := first + [step];
    }
  }

  /** Some run leads to a log_write that its budget allows and that panics. */
  ghost predicate CanPanic(how: Charge, size: int) {
    exists steps, p, b ::
      && Runs(how, Init(size), steps)
      && Enabled(how, After(how, Init(size), steps), LogWrite(p, b))
      && Panics(After(how, Init(size), steps), LogWrite(p, b))
  }

  lemma ReachedPanics(how: Charge, size: int)
    requires Kept(how) && Limit(size) <= Reach(how)
    ensures CanPanic(how, size)
  {
    var m := Limit(size);
    if m <= MAXOPBLOCKS {
      var k := if m < 0 then 0 else m;
      var steps := RunEarly(how, size, k);
      assert Enabled(how, After(how, Init(size), steps), LogWrite(0, k));
      assert Panics(After(how, Init(size), steps), LogWrite(0, k));
    } else {
      var j := m - MAXOPBLOCKS;
      var steps := RunLate(how, size, j);
      var step := if j < how.most then LogWrite(0, m)
                  else if j < 2 * how.most then LogWrite(1, m)
                  else LogWrite(0, MAXOPBLOCKS);
      assert Late(how, size, j).log.blocks[MAXOPBLOCKS] == MAXOPBLOCKS;
      assert Enabled(how, After(how, Init(size), steps), step);
      assert Panics(After(how, Init(size), steps), step);
    }
  }

  /** The exact condition: log_write can panic although every operation keeps to its budget if and
      only if the log refuses a number of blocks that it can reach. */
  lemma PanicsIff(how: Charge, size: int)
    requires Kept(how)
    ensures CanPanic(how, size) <==> Limit(size) <= Reach(how)
  {
    if Limit(size) <= Reach(how) {
      ReachedPanics(how, size);
    } else {
      forall steps, p, b |
        Runs(how, Init(size), steps) && Enabled(how, After(how, Init(size), steps), LogWrite(p, b))
        ensures !Panics(After(how, Init(size), steps), LogWrite(p, b))
      {
        RoomNeverPanics(how, size, steps, p, b);
      }
    }
  }

  /** With MAXOPBLOCKS calls per operation, log_write is safe exactly for logs larger than LOGSIZE;
      mkfs makes the log exactly LOGSIZE blocks. */
  lemma SafeIffLargeLog(size: int)
    ensures CanPanic(PerCall(MAXOPBLOCKS), size) <==> size <= LOGSIZE
  {
    PanicsIff(PerCall(MAXOPBLOCKS), size);
  }

  /** With MAXOPBLOCKS new blocks per operation, no log size is safe: with the log full, an operation
      that logs one of its own blocks again needs no room, yet the guard comes first. */
  lemma PerBlockAlwaysPanics(size: int)
    ensures CanPanic(PerBlock(MAXOPBLOCKS), size)
  {
    PanicsIff(PerBlock(MAXOPBLOCKS), size);
  }

  /** In a log of LOGSIZE blocks, as mkfs makes it, operations are safe if and only if they keep to
      fewer than MAXOPBLOCKS new blocks, however often they log them. */
  lemma MkfsLogIsSafeIff(most: nat)
    requires 1 <= most <= MAXOPBLOCKS
    ensures CanPanic(PerBlock(most), LOGSIZE) <==> most == MAXOPBLOCKS
  {
    PanicsIff(PerBlock(most), LOGSIZE);
  }
}
