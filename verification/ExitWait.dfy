/** fork, exit, wait, reparent and the sleep and wakeup they use (kernel/proc.c), as steps that
    interleave at lock boundaries. Each slot of the process table has a program counter for the
    kernel code its process is in. A short critical section that touches one slot is one step. */
module ExitWait {
  import opened Params
  import opened Sequences

  const INIT: nat := 0
  /** No process, in `parent` and `waitLock`; no channel, in `chan`. */
  const NONE: int := -1
  /** Asleep for some other reason than wait. */
  const ELSE: int := -2

  datatype Status = Unused | Used | Runnable | Running | Sleeping | Zombie

  /** Who holds a slot's lock. */
  datatype Lock = Open | Self | By(p: nat)

  datatype Pc =
    | Nothing                             // no thread: the slot is unused or still being set up
    | Idle                                // none of the code below
    | Forking(np: nat)                    // fork: the new slot is locked and Used
    | ForkParent(np: nat)                 // fork: its lock released, parent not yet set
    | ForkStart(np: nat)                  // fork: parent set, not yet RUNNABLE
    | Reparent(k: nat)                    // exit: children below k handed to init
    | ReparentWake(k: nat, j: nat)        // exit: wakeup(initproc) has passed the slots below j
    | ExitWake(j: nat)                    // exit: wakeup(p->parent) has passed the slots below j
    | ExitLast                            // exit: about to become a zombie
    | Dying                               // exit: ZOMBIE, own lock and wait_lock held
    | Leaving                             // exit: wait_lock released, own lock held until swtch
    | Dead                                // switched away for good
    | Scan(k: nat, kids: bool)            // wait: slots below k inspected
    | ScanChild(k: nat, kids: bool)       // wait: slot k is a child and locked
    | WaitSleep                           // sleep: own lock taken, wait_lock still held
    | WaitPark                            // sleep: wait_lock released
    | Asleep                              // switched away in sleep
    | Woken                               // running again, own lock still held
    | Rewait                              // about to take wait_lock again

  datatype Proc = Proc(st: Status, pc: Pc, parent: int, lock: Lock, chan: int, killed: bool, pid: nat, creator: int)

  /** wait_lock's holder, whether init is still to be woken for a child handed to it, the process
      numbers given out, and those that wait has returned. */
  datatype Global = Global(holder: int, pending: bool, nextpid: nat, reaped: seq<nat>)

  datatype State = State(procs: seq<Proc>, g: Global)

  datatype Step =
    | Fork(p: nat, np: nat) | ForkFail(p: nat) | ForkRelease(p: nat) | ForkSetParent(p: nat) | ForkRun(p: nat)
    | ExitBegin(p: nat) | ReparentOne(p: nat) | ReparentWakeOne(p: nat) | ExitWakeOne(p: nat)
    | ExitZombie(p: nat) | ExitRelease(p: nat) | ExitSwitch(p: nat)
    | WaitBegin(p: nat) | ScanOne(p: nat) | Inspect(p: nat, copied: bool) | GiveUp(p: nat) | SleepLock(p: nat)
    | SleepRelease(p: nat) | SleepSwitch(p: nat) | Resume(p: nat)
    | Run(p: nat) | Yield(p: nat) | SleepElse(p: nat) | WakeElse(p: nat) | Kill(p: nat)

  predicate Slot(s: State, p: nat) {
    |s.procs| == NPROC && p < NPROC
  }

  /** The other slot that a step of process P touches; its own if there is none. */
  function Partner(step: Step, P: Proc): nat {
    match step
    case Fork(_, np) => np
    case ForkFail(p) => if P.pc.Forking? then P.pc.np else p
    case ForkRelease(p) => if P.pc.Forking? then P.pc.np else p
    case ForkSetParent(p) => if P.pc.ForkParent? then P.pc.np else p
    case ForkRun(p) => if P.pc.ForkStart? then P.pc.np else p
    case ReparentOne(p) => if P.pc.Reparent? && P.pc.k < NPROC then P.pc.k else p
    case ReparentWakeOne(p) => if P.pc.ReparentWake? && P.pc.j < NPROC then P.pc.j else p
    case ExitWakeOne(p) => if P.pc.ExitWake? && P.pc.j < NPROC then P.pc.j else p
    case ScanOne(p) => if P.pc.Scan? then P.pc.k else p
    case Inspect(p, _) => if P.pc.ScanChild? then P.pc.k else p
    case _ => step.p
  }

  /** The step is possible for process P in slot p, with Q in the other slot q. */
  predicate Can(g: Global, step: Step, P: Proc, q: nat, Q: Proc) {
    match step
    case Fork(p, _) => P.st.Running? && P.pc.Idle? && q != p && Q.lock.Open? && Q.st.Unused?
    case ForkFail(p) => P.st.Running? && P.pc.Forking?
    case ForkRelease(p) => P.st.Running? && P.pc.Forking?
    case ForkSetParent(p) => P.st.Running? && P.pc.ForkParent? && g.holder == NONE
    case ForkRun(p) => P.st.Running? && P.pc.ForkStart? && Q.lock.Open?
    case ExitBegin(p) => P.st.Running? && P.pc.Idle? && p != INIT && g.holder == NONE
    case ReparentOne(p) => P.st.Running? && P.pc.Reparent?
    case ReparentWakeOne(p) => P.st.Running? && P.pc.ReparentWake? && (q == p || Q.lock.Open?)
    case ExitWakeOne(p) => P.st.Running? && P.pc.ExitWake? && (q == p || Q.lock.Open?)
    case ExitZombie(p) => P.st.Running? && P.pc.ExitLast? && P.lock.Open?
    case ExitRelease(p) => P.pc.Dying?
    case ExitSwitch(p) => P.pc.Leaving?
    case WaitBegin(p) => P.st.Running? && (P.pc.Idle? || P.pc.Rewait?) && g.holder == NONE
    case ScanOne(p) => P.st.Running? && P.pc.Scan? && P.pc.k < NPROC && (Q.parent == p ==> Q.lock.Open?)
    case Inspect(p, _) => P.st.Running? && P.pc.ScanChild?
    case GiveUp(p) => P.st.Running? && P.pc.Scan? && P.pc.k == NPROC && P.lock.Open? && (!P.pc.kids || P.killed)
    case SleepLock(p) => P.st.Running? && P.pc.Scan? && P.pc.k == NPROC && P.lock.Open? && P.pc.kids
    case SleepRelease(p) => P.st.Running? && P.pc.WaitSleep?
    case SleepSwitch(p) => P.st.Running? && P.pc.WaitPark?
    case Resume(p) => P.st.Running? && P.pc.Woken?
    case Run(p) => P.st.Runnable? && P.lock.Open?
    case Yield(p) => P.st.Running? && P.lock.Open? && (P.pc.Idle? || P.pc.ForkParent? || P.pc.ForkStart? ||
        P.pc.Rewait?)
    case SleepElse(p) => P.st.Running? && P.lock.Open? && P.pc.Idle?
    case WakeElse(p) => P.lock.Open? && P.st.Sleeping? && P.chan == ELSE
    case Kill(p) => P.lock.Open?
  }

  /** What the step does to the slot of the process that takes it. */
  function Own(g: Global, step: Step, P: Proc, q: nat, Q: Proc): Proc
    requires Can(g, step, P, q, Q)
  {
    match step
    case Fork(_, _) => P.(pc := Forking(q))
    case ForkFail(_) => P.(pc := Idle)
    case ForkRelease(_) => P.(pc := ForkParent(P.pc.np))
    case ForkSetParent(_) => P.(pc := ForkStart(P.pc.np))
    case ForkRun(_) => P.(pc := Idle)
    case ExitBegin(_) => P.(pc := Reparent(0))
    case ReparentOne(p) =>
      if P.pc.k >= NPROC then P.(pc := ExitWake(0))
      else if Q.parent == p then P.(pc := ReparentWake(P.pc.k, 0))
      else P.(pc := Reparent(P.pc.k + 1))
    case ReparentWakeOne(_) =>
      if P.pc.j >= NPROC then P.(pc := Reparent(P.pc.k + 1)) else P.(pc := ReparentWake(P.pc.k, P.pc.j + 1))
    case ExitWakeOne(_) => if P.pc.j >= NPROC then P.(pc := ExitLast) else P.(pc := ExitWake(P.pc.j + 1))
    case ExitZombie(_) => P.(st := Zombie, lock := Self, pc := Dying)
    case ExitRelease(_) => P.(pc := Leaving)
    case ExitSwitch(_) => P.(lock := Open, pc := Dead)
    case WaitBegin(_) => P.(pc := Scan(0, false))
    case ScanOne(p) => if Q.parent == p then P.(pc := ScanChild(P.pc.k, P.pc.kids))
        else P.(pc := Scan(P.pc.k + 1, P.pc.kids))
    case Inspect(_, _) => if Q.st.Zombie? then P.(pc := Idle) else P.(pc := Scan(P.pc.k + 1, true))
    case GiveUp(_) => P.(pc := Idle)
    case SleepLock(_) => P.(lock := Self, pc := WaitSleep)
    case SleepRelease(_) => P.(pc := WaitPark)
    case SleepSwitch(p) => P.(st := Sleeping, chan := p, lock := Open, pc := Asleep)
    case Resume(_) => P.(chan := NONE, lock := Open, pc := Rewait)
    case Run(_) => if P.pc.Asleep? then P.(st := Running, lock := Self, pc := Woken) else P.(st := Running)
    case Yield(_) => P.(st := Runnable)
    case SleepElse(_) => P.(st := Sleeping, chan := ELSE)
    case WakeElse(_) => P.(st := Runnable, chan := NONE)
    case Kill(_) => P.(killed := true, st := if P.st.Sleeping? then Runnable else P.st)
  }

  /** freeproc. */
  function FreeProc(Q: Proc): Proc {
    Q.(st := Unused, pid := 0, parent := NONE, chan := NONE, killed := false, lock := Open, pc := Nothing)
  }

  /** wakeup looks at one slot: a sleeper on the channel becomes runnable. */
  function Wake(Q: Proc, c: int): Proc {
    if Q.st.Sleeping? && Q.chan == c then Q.(st := Runnable) else Q
  }

  /** What the step does to the other slot. */
  function Other(g: Global, step: Step, P: Proc, q: nat, Q: Proc): Proc
    requires Can(g, step, P, q, Q)
  {
    match step
    case Fork(p, _) => Q.(st := Used, pid := g.nextpid, lock := By(p), creator := p)
    case ForkFail(_) => FreeProc(Q)
    case ForkRelease(_) => Q.(lock := Open)
    case ForkSetParent(p) => Q.(parent := p)
    case ForkRun(_) => Q.(st := Runnable, pc := Idle)
    case ReparentOne(p) => if P.pc.k < NPROC && Q.parent == p then Q.(parent := INIT) else Q
    case ReparentWakeOne(p) => if P.pc.j < NPROC && q != p then Wake(Q, INIT) else Q
    case ExitWakeOne(p) => if P.pc.j < NPROC && q != p then Wake(Q, P.parent) else Q
    case ScanOne(p) => if Q.parent == p then Q.(lock := By(p)) else Q
    case Inspect(_, copied) => if Q.st.Zombie? && copied then FreeProc(Q) else Q.(lock := Open)
    case _ => Q
  }

  function Globally(g: Global, step: Step, P: Proc, q: nat, Q: Proc): Global
    requires Can(g, step, P, q, Q)
  {
    match step
    case Fork(_, _) => g.(nextpid := g.nextpid + 1)
    case ExitBegin(p) => g.(holder := p)
    case ReparentOne(p) => if P.pc.k < NPROC && Q.parent == p then g.(pending := true) else g
    case ReparentWakeOne(_) => if P.pc.j == INIT then g.(pending := false) else g
    case ExitRelease(_) => g.(holder := NONE)
    case WaitBegin(p) => g.(holder := p)
    case Inspect(_, copied) =>
      if Q.st.Zombie? && copied then g.(holder := NONE, reaped := g.reaped + [Q.pid])
      else if Q.st.Zombie? then g.(holder := NONE)
      else g
    case GiveUp(_) => g.(holder := NONE)
    case SleepRelease(_) => g.(holder := NONE)
    case _ => g
  }

  predicate Enabled(s: State, step: Step) {
    && Slot(s, step.p)
    && var P := s.procs[step.p];
       var q := Partner(step, P);
       q < NPROC && Can(s.g, step, P, q, s.procs[q])
  }

  function Do(s: State, step: Step): (s': State)
    requires Enabled(s, step)
    ensures |s'.procs| == NPROC
  {
    var p := step.p;
    var P := s.procs[p];
    var q := Partner(step, P);
    var Q := s.procs[q];
    State(s.procs[q := Other(s.g, step, P, q, Q)][p := Own(s.g, step, P, q, Q)], Globally(s.g, step, P, q, Q))
  }

  // the invariant, slot by slot and pair by pair

  predicate HoldsWait(c: Pc) {
    c.Reparent? || c.ReparentWake? || c.ExitWake? || c.ExitLast? || c.Dying? || c.Scan? || c.ScanChild? || c.WaitSleep?
  }

  predicate HoldsSelf(c: Pc) {
    c.Dying? || c.Leaving? || c.WaitSleep? || c.WaitPark? || c.Woken?
  }

  predicate HoldsOther(c: Pc, x: nat) {
    (c.Forking? && c.np == x) || (c.ScanChild? && c.k == x)
  }

  predicate IsLive(t: Status) {
    t.Runnable? || t.Running? || t.Sleeping?
  }

  /** A program counter agrees with the process state. */
  predicate PcOk(p: nat, P: Proc) {
    match P.pc
    case Nothing => P.st.Unused? || P.st.Used?
    case Idle => IsLive(P.st) && (P.st.Sleeping? ==> P.chan == ELSE)
    case ForkParent(_) => P.st.Runnable? || P.st.Running?
    case ForkStart(_) => P.st.Runnable? || P.st.Running?
    case Rewait => P.st.Runnable? || P.st.Running?
    case Dying => P.st.Zombie?
    case Leaving => P.st.Zombie?
    case Dead => P.st.Zombie?
    case Asleep => (P.st.Sleeping? && P.chan == p) || P.st.Runnable?
    case _ => P.st.Running?
  }

  predicate InRange(p: nat, c: Pc) {
    && (c.Forking? || c.ForkParent? || c.ForkStart? ==> c.np < NPROC && c.np != p)
    && (c.Reparent? ==> c.k <= NPROC) && (c.ReparentWake? ==> c.k < NPROC && c.j <= NPROC) && (c.ExitWake? ==>
        c.j <= NPROC)
    && (c.Scan? ==> c.k <= NPROC) && (c.ScanChild? ==> c.k < NPROC && c.k != p)
  }

  predicate Exiting(c: Pc) {
    c.Reparent? || c.ReparentWake? || c.ExitWake? || c.ExitLast?
  }

  /** What holds of one slot. */
  predicate One(g: Global, p: nat, P: Proc) {
    && PcOk(p, P) && InRange(p, P.pc)
    && (HoldsWait(P.pc) <==> g.holder == p) && (HoldsSelf(P.pc) <==> P.lock.Self?)
    && (P.lock.By? ==> P.lock.p < NPROC)
    && (HoldsWait(P.pc) && g.pending ==> P.pc.ReparentWake? && P.pc.j <= INIT)
    && (p == INIT ==> IsLive(P.st) && P.parent == NONE && !Exiting(P.pc))
    && (P.parent == NONE || (0 <= P.parent < NPROC && P.parent != p))
    && (p != INIT && (IsLive(P.st) || P.st.Zombie?) ==> P.parent != NONE)
    && (P.st.Unused? ==> P.parent == NONE)
    && (!P.st.Unused? ==> P.pid < g.nextpid && P.pid !in g.reaped)
  }

  /** p will sleep, or sleeps, until it is woken. */
  predicate Committed(P: Proc) {
    P.pc.WaitPark? || (P.pc.Asleep? && P.st.Sleeping?)
  }

  /** How far the scans of exit and wait by p have come, as seen from slot x. */
  predicate Progress(p: nat, P: Proc, x: nat, X: Proc) {
    match P.pc
    case Reparent(k) => x < k ==> X.parent != p
    case ReparentWake(k, _) => x <= k ==> X.parent != p
    case ExitWake(_) => X.parent != p
    case ExitLast => X.parent != p
    case Scan(k, _) => x < k && X.parent == p ==> !X.st.Zombie?
    case ScanChild(k, _) => (x < k && X.parent == p ==> !X.st.Zombie?) && (x == k ==> X.parent == p)
    case WaitSleep => X.parent == p ==> !X.st.Zombie?
    case _ => true
  }

  /** x, while it exits, has already woken its parent. */
  predicate WokeParent(p: nat, X: Proc) {
    X.parent == p && ((X.pc.ExitWake? && X.pc.j > p) || X.pc.ExitLast?)
  }

  predicate Creates(p: nat, P: Proc, x: nat, X: Proc) {
    (P.pc.Forking? || P.pc.ForkParent? || P.pc.ForkStart?) && P.pc.np == x ==>
      X.st.Used? && X.creator == p && X.parent == if P.pc.ForkStart? then p else NONE
  }

  /** What holds of two different slots. */
  predicate Two(g: Global, p: nat, P: Proc, x: nat, X: Proc) {
    && (HoldsOther(P.pc, x) <==> X.lock == By(p))
    && Creates(p, P, x, X)
    && (X.parent == p ==> IsLive(P.st))
    && Progress(p, P, x, X)
    && (Committed(P) && X.parent == p && X.st.Zombie? ==> p == INIT && g.pending)
    && (WokeParent(p, X) ==> !Committed(P))
    && (!P.st.Unused? && !X.st.Unused? ==> P.pid != X.pid)
  }

  ghost predicate GlobalOk(g: Global) {
    && (g.holder == NONE || 0 <= g.holder < NPROC)
    && (g.holder == NONE ==> !g.pending)
    && (forall i :: 0 <= i < |g.reaped| ==> g.reaped[i] < g.nextpid)
    && (forall i, j :: 0 <= i < j < |g.reaped| ==> g.reaped[i] != g.reaped[j])
  }

  ghost predicate Inv(s: State) {
    && |s.procs| == NPROC && GlobalOk(s.g)
    && (forall p: nat :: p < NPROC ==> One(s.g, p, s.procs[p]))
    && (forall p: nat, x: nat :: p < NPROC && x < NPROC && p != x ==> Two(s.g, p, s.procs[p], x, s.procs[x]))
  }

  // every step keeps it

  /** The situation of a step: process P in slot p, Q in the other slot q. */
  ghost predicate Setting(g: Global, step: Step, P: Proc, q: nat, Q: Proc) {
    && GlobalOk(g) && step.p < NPROC && q < NPROC && q == Partner(step, P) && Can(g, step, P, q, Q)
    && One(g, step.p, P) && One(g, q, Q) && (q == step.p ==> Q == P)
    && (q != step.p ==> Two(g, step.p, P, q, Q) && Two(g, q, Q, step.p, P))
  }

  ghost predicate Third(g: Global, step: Step, P: Proc, q: nat, Q: Proc, r: nat, R: Proc) {
    && r < NPROC && r != step.p && One(g, r, R) && Two(g, step.p, P, r, R) && Two(g, r, R, step.p, P)
    && (r != q ==> Two(g, q, Q, r, R) && Two(g, r, R, q, Q))
  }

  lemma GlobalKeeps(g: Global, step: Step, P: Proc, q: nat, Q: Proc)
    requires Setting(g, step, P, q, Q)
    ensures GlobalOk(Globally(g, step, P, q, Q))
  {
  }

  predicate IsFork(step: Step) {
    step.Fork? || step.ForkFail? || step.ForkRelease? || step.ForkSetParent? || step.ForkRun?
  }

  predicate IsExit(step: Step) {
    step.ReparentOne? || step.ReparentWakeOne? || step.ExitWakeOne?
  }

  predicate IsEnd(step: Step) {
    step.ExitBegin? || step.ExitZombie? || step.ExitRelease? || step.ExitSwitch?
  }

  predicate IsWait(step: Step) {
    step.ScanOne? || step.Inspect?
  }

  predicate IsSleep(step: Step) {
    step.WaitBegin? || step.GiveUp? || step.SleepLock? || step.SleepRelease? || step.SleepSwitch? || step.Resume?
  }

  predicate IsOther(step: Step) {
    !IsFork(step) && !IsExit(step) && !IsEnd(step) && !IsWait(step) && !IsSleep(step)
  }

  lemma OwnOneFork(g: Global, step: Step, P: Proc, q: nat, Q: Proc)
    requires Setting(g, step, P, q, Q) && IsFork(step)
    ensures One(Globally(g, step, P, q, Q), step.p, Own(g, step, P, q, Q))
  {
  }

  lemma OwnOneExit(g: Global, step: Step, P: Proc, q: nat, Q: Proc)
    requires Setting(g, step, P, q, Q) && IsExit(step)
    ensures One(Globally(g, step, P, q, Q), step.p, Own(g, step, P, q, Q))
  {
  }

  lemma OwnOneEnd(g: Global, step: Step, P: Proc, q: nat, Q: Proc)
    requires Setting(g, step, P, q, Q) && IsEnd(step)
    ensures One(Globally(g, step, P, q, Q), step.p, Own(g, step, P, q, Q))
  {
  }

  lemma OwnOneSleep(g: Global, step: Step, P: Proc, q: nat, Q: Proc)
    requires Setting(g, step, P, q, Q) && IsSleep(step)
    ensures One(Globally(g, step, P, q, Q), step.p, Own(g, step, P, q, Q))
  {
    hide Setting, One, Own, Globally;
    if step.SleepRelease? || step.SleepSwitch? || step.Resume? {
      OwnOneOff(g, step, P, q, Q);
    } else {
      OwnOneDown(g, step, P, q, Q);
    }
  }

  lemma OwnOneDown(g: Global, step: Step, P: Proc, q: nat, Q: Proc)
    requires Setting(g, step, P, q, Q) && (step.WaitBegin? || step.GiveUp? || step.SleepLock?)
    ensures One(Globally(g, step, P, q, Q), step.p, Own(g, step, P, q, Q))
  {
    hide Two;
  }

  lemma OwnOneOff(g: Global, step: Step, P: Proc, q: nat, Q: Proc)
    requires Setting(g, step, P, q, Q) && (step.SleepRelease? || step.SleepSwitch? || step.Resume?)
    ensures One(Globally(g, step, P, q, Q), step.p, Own(g, step, P, q, Q))
  {
    hide Two;
  }

  lemma OwnOneWait(g: Global, step: Step, P: Proc, q: nat, Q: Proc)
    requires Setting(g, step, P, q, Q) && IsWait(step)
    ensures One(Globally(g, step, P, q, Q), step.p, Own(g, step, P, q, Q))
  {
  }

  lemma OwnOneRest(g: Global, step: Step, P: Proc, q: nat, Q: Proc)
    requires Setting(g, step, P, q, Q) && IsOther(step)
    ensures One(Globally(g, step, P, q, Q), step.p, Own(g, step, P, q, Q))
  {
  }

  lemma OwnOne(g: Global, step: Step, P: Proc, q: nat, Q: Proc)
    requires Setting(g, step, P, q, Q)
    ensures One(Globally(g, step, P, q, Q), step.p, Own(g, step, P, q, Q))
  {
    hide Setting, One, Own, Globally;
    if IsFork(step) {
      OwnOneFork(g, step, P, q, Q);
    } else if IsExit(step) {
      OwnOneExit(g, step, P, q, Q);
    } else if IsEnd(step) {
      OwnOneEnd(g, step, P, q, Q);
    } else if IsSleep(step) {
      OwnOneSleep(g, step, P, q, Q);
    } else if IsWait(step) {
      OwnOneWait(g, step, P, q, Q);
    } else {
      OwnOneRest(g, step, P, q, Q);
    }
  }

  lemma OtherOne(g: Global, step: Step, P: Proc, q: nat, Q: Proc)
    requires Setting(g, step, P, q, Q) && q != step.p
    ensures One(Globally(g, step, P, q, Q), q, Other(g, step, P, q, Q))
  {
  }

  lemma RestOne(g: Global, step: Step, P: Proc, q: nat, Q: Proc, r: nat, R: Proc)
    requires Setting(g, step, P, q, Q) && Third(g, step, P, q, Q, r, R) && r != q
    ensures One(Globally(g, step, P, q, Q), r, R)
  {
  }

  lemma PairTwoFork(g: Global, step: Step, P: Proc, q: nat, Q: Proc)
    requires Setting(g, step, P, q, Q) && q != step.p && IsFork(step)
    ensures Two(Globally(g, step, P, q, Q), step.p, Own(g, step, P, q, Q), q, Other(g, step, P, q, Q))
    ensures Two(Globally(g, step, P, q, Q), q, Other(g, step, P, q, Q), step.p, Own(g, step, P, q, Q))
  {
  }

  lemma PairTwoExit(g: Global, step: Step, P: Proc, q: nat, Q: Proc)
    requires Setting(g, step, P, q, Q) && q != step.p && IsExit(step)
    ensures Two(Globally(g, step, P, q, Q), step.p, Own(g, step, P, q, Q), q, Other(g, step, P, q, Q))
    ensures Two(Globally(g, step, P, q, Q), q, Other(g, step, P, q, Q), step.p, Own(g, step, P, q, Q))
  {
  }

  lemma PairTwoWait(g: Global, step: Step, P: Proc, q: nat, Q: Proc)
    requires Setting(g, step, P, q, Q) && q != step.p && IsWait(step)
    ensures Two(Globally(g, step, P, q, Q), step.p, Own(g, step, P, q, Q), q, Other(g, step, P, q, Q))
    ensures Two(Globally(g, step, P, q, Q), q, Other(g, step, P, q, Q), step.p, Own(g, step, P, q, Q))
  {
  }

  lemma PairTwo(g: Global, step: Step, P: Proc, q: nat, Q: Proc)
    requires Setting(g, step, P, q, Q) && q != step.p
    ensures Two(Globally(g, step, P, q, Q), step.p, Own(g, step, P, q, Q), q, Other(g, step, P, q, Q))
    ensures Two(Globally(g, step, P, q, Q), q, Other(g, step, P, q, Q), step.p, Own(g, step, P, q, Q))
  {
    hide One, Two, Own, Other, Globally;
    if IsFork(step) {
      PairTwoFork(g, step, P, q, Q);
    } else if IsExit(step) {
      PairTwoExit(g, step, P, q, Q);
    } else {
      PairTwoWait(g, step, P, q, Q);
    }
  }

  lemma OwnTwoFork(g: Global, step: Step, P: Proc, q: nat, Q: Proc, r: nat, R: Proc)
    requires Setting(g, step, P, q, Q) && Third(g, step, P, q, Q, r, R) && r != q && IsFork(step)
    ensures Two(Globally(g, step, P, q, Q), step.p, Own(g, step, P, q, Q), r, R)
    ensures Two(Globally(g, step, P, q, Q), r, R, step.p, Own(g, step, P, q, Q))
  {
  }

  lemma OwnTwoExit(g: Global, step: Step, P: Proc, q: nat, Q: Proc, r: nat, R: Proc)
    requires Setting(g, step, P, q, Q) && Third(g, step, P, q, Q, r, R) && r != q && IsExit(step)
    ensures Two(Globally(g, step, P, q, Q), step.p, Own(g, step, P, q, Q), r, R)
    ensures Two(Globally(g, step, P, q, Q), r, R, step.p, Own(g, step, P, q, Q))
  {
  }

  lemma OwnTwoEnd(g: Global, step: Step, P: Proc, q: nat, Q: Proc, r: nat, R: Proc)
    requires Setting(g, step, P, q, Q) && Third(g, step, P, q, Q, r, R) && r != q && IsEnd(step)
    ensures Two(Globally(g, step, P, q, Q), step.p, Own(g, step, P, q, Q), r, R)
    ensures Two(Globally(g, step, P, q, Q), r, R, step.p, Own(g, step, P, q, Q))
  {
  }

  lemma OwnTwoSleep(g: Global, step: Step, P: Proc, q: nat, Q: Proc, r: nat, R: Proc)
    requires Setting(g, step, P, q, Q) && Third(g, step, P, q, Q, r, R) && r != q && IsSleep(step)
    ensures Two(Globally(g, step, P, q, Q), step.p, Own(g, step, P, q, Q), r, R)
    ensures Two(Globally(g, step, P, q, Q), r, R, step.p, Own(g, step, P, q, Q))
  {
  }

  lemma OwnTwoWait(g: Global, step: Step, P: Proc, q: nat, Q: Proc, r: nat, R: Proc)
    requires Setting(g, step, P, q, Q) && Third(g, step, P, q, Q, r, R) && r != q && IsWait(step)
    ensures Two(Globally(g, step, P, q, Q), step.p, Own(g, step, P, q, Q), r, R)
    ensures Two(Globally(g, step, P, q, Q), r, R, step.p, Own(g, step, P, q, Q))
  {
  }

  lemma OwnTwoRest(g: Global, step: Step, P: Proc, q: nat, Q: Proc, r: nat, R: Proc)
    requires Setting(g, step, P, q, Q) && Third(g, step, P, q, Q, r, R) && r != q && IsOther(step)
    ensures Two(Globally(g, step, P, q, Q), step.p, Own(g, step, P, q, Q), r, R)
    ensures Two(Globally(g, step, P, q, Q), r, R, step.p, Own(g, step, P, q, Q))
  {
  }

  lemma OwnTwo(g: Global, step: Step, P: Proc, q: nat, Q: Proc, r: nat, R: Proc)
    requires Setting(g, step, P, q, Q) && Third(g, step, P, q, Q, r, R) && r != q
    ensures Two(Globally(g, step, P, q, Q), step.p, Own(g, step, P, q, Q), r, R)
    ensures Two(Globally(g, step, P, q, Q), r, R, step.p, Own(g, step, P, q, Q))
  {
    hide One, Two, Own, Other, Globally, Third;
    if IsFork(step) {
      OwnTwoFork(g, step, P, q, Q, r, R);
    } else if IsExit(step) {
      OwnTwoExit(g, step, P, q, Q, r, R);
    } else if IsEnd(step) {
      OwnTwoEnd(g, step, P, q, Q, r, R);
    } else if IsSleep(step) {
      OwnTwoSleep(g, step, P, q, Q, r, R);
    } else if IsWait(step) {
      OwnTwoWait(g, step, P, q, Q, r, R);
    } else {
      OwnTwoRest(g, step, P, q, Q, r, R);
    }
  }

  lemma OtherSees(g: Global, step: Step, P: Proc, q: nat, Q: Proc, r: nat, R: Proc)
    requires Setting(g, step, P, q, Q) && Third(g, step, P, q, Q, r, R) && r != q && q != step.p
    ensures Two(Globally(g, step, P, q, Q), q, Other(g, step, P, q, Q), r, R)
  {
  }

  lemma OtherSeen(g: Global, step: Step, P: Proc, q: nat, Q: Proc, r: nat, R: Proc)
    requires Setting(g, step, P, q, Q) && Third(g, step, P, q, Q, r, R) && r != q && q != step.p
    ensures Two(Globally(g, step, P, q, Q), r, R, q, Other(g, step, P, q, Q))
  {
  }

  lemma RestTwo(g: Global, step: Step, P: Proc, q: nat, Q: Proc, r: nat, R: Proc, t: nat, T: Proc)
    requires Setting(g, step, P, q, Q) && Third(g, step, P, q, Q, r, R) && Third(g, step, P, q, Q, t, T)
    requires r != q && t != q && r != t && Two(g, r, R, t, T)
    ensures Two(Globally(g, step, P, q, Q), r, R, t, T)
  {
  }

  /** The pairs and thirds of a state that satisfies the invariant. */
  lemma Settings(s: State, step: Step)
    requires Inv(s) && Enabled(s, step)
    ensures var P := s.procs[step.p];
            var q := Partner(step, P);
            Setting(s.g, step, P, q, s.procs[q])
  {
    hide One, Two, Can, GlobalOk;
  }

  lemma Thirds(s: State, step: Step, r: nat)
    requires Inv(s) && Enabled(s, step) && r < NPROC && r != step.p
    ensures var P := s.procs[step.p];
            var q := Partner(step, P);
            Third(s.g, step, P, q, s.procs[q], r, s.procs[r])
  {
    hide One, Two, Can, GlobalOk;
  }

  lemma DoProcs(s: State, step: Step, r: nat)
    requires Enabled(s, step) && r < NPROC
    ensures var P := s.procs[step.p];
            var q := Partner(step, P);
            var Q := s.procs[q];
            && Do(s, step).g == Globally(s.g, step, P, q, Q)
            && Do(s, step).procs[r] ==
               if r == step.p then Own(s.g, step, P, q, Q) else if r == q then Other(s.g, step, P, q, Q) else s.procs[r]
  {
    hide Can, Own, Other, Globally, Partner;
  }

  lemma StepOne(s: State, step: Step, r: nat)
    requires Inv(s) && Enabled(s, step) && r < NPROC
    ensures One(Do(s, step).g, r, Do(s, step).procs[r])
  {
    hide One, Two, Can, GlobalOk, Inv, Setting, Third, Own, Other, Globally, Partner, Do;
    DoProcs(s, step, r);
    var P := s.procs[step.p];
    var q := Partner(step, P);
    Settings(s, step);
    if r == step.p {
      OwnOne(s.g, step, P, q, s.procs[q]);
    } else if r == q {
      OtherOne(s.g, step, P, q, s.procs[q]);
    } else {
      Thirds(s, step, r);
      RestOne(s.g, step, P, q, s.procs[q], r, s.procs[r]);
    }
  }

  /** A pair with the process that takes the step, in both orders. */
  lemma StepTwoOwn(s: State, step: Step, t: nat)
    requires Inv(s) && Enabled(s, step) && t < NPROC && t != step.p
    ensures Two(Do(s, step).g, step.p, Do(s, step).procs[step.p], t, Do(s, step).procs[t])
    ensures Two(Do(s, step).g, t, Do(s, step).procs[t], step.p, Do(s, step).procs[step.p])
  {
    hide One, Two, Can, GlobalOk, Setting, Third, Own, Other, Globally, Partner, Do, Inv;
    DoProcs(s, step, step.p);
    DoProcs(s, step, t);
    var P := s.procs[step.p];
    var q := Partner(step, P);
    Settings(s, step);
    Thirds(s, step, t);
    if t == q {
      PairTwo(s.g, step, P, q, s.procs[q]);
    } else {
      OwnTwo(s.g, step, P, q, s.procs[q], t, s.procs[t]);
    }
  }

  lemma TwoOf(s: State, r: nat, t: nat)
    requires Inv(s) && r < NPROC && t < NPROC && r != t
    ensures Two(s.g, r, s.procs[r], t, s.procs[t])
  {
  }

  /** What a step leaves in a slot that is not the stepping process's own. */
  function Left(g: Global, step: Step, P: Proc, q: nat, Q: Proc, r: nat, R: Proc): Proc
    requires Can(g, step, P, q, Q)
  {
    if r == q then Other(g, step, P, q, Q) else R
  }

  lemma PairAfter(g: Global, step: Step, P: Proc, q: nat, Q: Proc, r: nat, R: Proc, t: nat, T: Proc)
    requires Setting(g, step, P, q, Q) && Third(g, step, P, q, Q, r, R) && Third(g, step, P, q, Q, t, T)
    requires r != t && r != step.p && t != step.p && Two(g, r, R, t, T)
    ensures Two(Globally(g, step, P, q, Q), r, Left(g, step, P, q, Q, r, R), t, Left(g, step, P, q, Q, t, T))
  {
    hide One, Two, Third, Other, Globally;
    if r == q {
      OtherSees(g, step, P, q, Q, t, T);
    } else if t == q {
      OtherSeen(g, step, P, q, Q, r, R);
    } else {
      RestTwo(g, step, P, q, Q, r, R, t, T);
    }
  }

  /** A pair of two other processes. */
  lemma StepTwoRest(s: State, step: Step, r: nat, t: nat)
    requires Inv(s) && Enabled(s, step) && r < NPROC && t < NPROC && r != t && r != step.p && t != step.p
    ensures Two(Do(s, step).g, r, Do(s, step).procs[r], t, Do(s, step).procs[t])
  {
    hide One, Two, Can, GlobalOk, Setting, Third, Own, Other, Globally, Partner, Do, Inv;
    DoProcs(s, step, r);
    DoProcs(s, step, t);
    TwoOf(s, r, t);
    Settings(s, step);
    Thirds(s, step, r);
    Thirds(s, step, t);
    var P := s.procs[step.p];
    var q := Partner(step, P);
    PairAfter(s.g, step, P, q, s.procs[q], r, s.procs[r], t, s.procs[t]);
  }

  lemma StepTwo(s: State, step: Step, r: nat, t: nat)
    requires Inv(s) && Enabled(s, step) && r < NPROC && t < NPROC && r != t
    ensures Two(Do(s, step).g, r, Do(s, step).procs[r], t, Do(s, step).procs[t])
  {
    hide Two, Inv, Enabled, Do;
    if r == step.p {
      StepTwoOwn(s, step, t);
    } else if t == step.p {
      StepTwoOwn(s, step, r);
    } else {
      StepTwoRest(s, step, r, t);
    }
  }

  lemma StepKeeps(s: State, step: Step)
    requires Inv(s) && Enabled(s, step)
    ensures Inv(Do(s, step))
  {
    hide One, Two, Can, GlobalOk, Do;
    var P := s.procs[step.p];
    var q := Partner(step, P);
    Settings(s, step);
    DoGlobal(s, step);
    forall r: nat | r < NPROC
      ensures One(Do(s, step).g, r, Do(s, step).procs[r])
    {
      StepOne(s, step, r);
    }
    forall r: nat, t: nat | r < NPROC && t < NPROC && r != t
      ensures Two(Do(s, step).g, r, Do(s, step).procs[r], t, Do(s, step).procs[t])
    {
      StepTwo(s, step, r, t);
    }
  }

  lemma DoGlobal(s: State, step: Step)
    requires Inv(s) && Enabled(s, step)
    ensures GlobalOk(Do(s, step).g)
  {
    hide One, Two, Can, Globally, Own, Other;
    Settings(s, step);
    var P := s.procs[step.p];
    GlobalKeeps(s.g, step, P, Partner(step, P), s.procs[Partner(step, P)]);
  }

  // whole runs

  /** The first process is init; every other slot is unused. */
  function Boot(): State {
    var init := Proc(Runnable, Idle, NONE, Open, NONE, false, 1, NONE);
    var unused := Proc(Unused, Nothing, NONE, Open, NONE, false, 0, NONE);
    State([init] + Copies(NPROC - 1, unused), Global(NONE, false, 2, []))
  }

  lemma BootProc(p: nat)
    requires p < NPROC
    ensures |Boot().procs| == NPROC
    ensures Boot().procs[p] == if p == INIT then Proc(Runnable, Idle, NONE, Open, NONE, false, 1, NONE)
                               else Proc(Unused, Nothing, NONE, Open, NONE, false, 0, NONE)
  {
  }

  lemma BootOne(p: nat)
    requires p < NPROC && |Boot().procs| == NPROC
    ensures One(Boot().g, p, Boot().procs[p])
  {
    BootProc(p);
  }

  lemma BootTwo(p: nat, x: nat)
    requires p < NPROC && x < NPROC && p != x && |Boot().procs| == NPROC
    ensures Two(Boot().g, p, Boot().procs[p], x, Boot().procs[x])
  {
    BootProc(p);
    BootProc(x);
  }

  lemma BootKeeps()
    ensures Inv(Boot())
  {
    hide One, Two, Copies;
    BootProc(0);
    forall p: nat | p < NPROC
      ensures One(Boot().g, p, Boot().procs[p])
    {
      BootOne(p);
    }
    forall p: nat, x: nat | p < NPROC && x < NPROC && p != x
      ensures Two(Boot().g, p, Boot().procs[p], x, Boot().procs[x])
    {
      BootTwo(p, x);
    }
  }

  predicate Runs(s: State, steps: seq<Step>)
    decreases |steps|
  {
    steps == [] || (Enabled(s, steps[0]) && Runs(Do(s, steps[0]), steps[1..]))
  }

  function After(s: State, steps: seq<Step>): State
    requires Runs(s, steps)
    decreases |steps|
  {
    if steps == [] then s else After(Do(s, steps[0]), steps[1..])
  }

  lemma {:induction false} RunKeeps(s: State, steps: seq<Step>)
    requires Inv(s) && Runs(s, steps)
    ensures Inv(After(s, steps))
    decreases |steps|
  {
    hide Inv, Enabled, Do;
    if steps != [] {
      StepKeeps(s, steps[0]);
      RunKeeps(Do(s, steps[0]), steps[1..]);
    }
  }

  /** Whenever wait_lock is free, no process asleep in wait has a child that is a zombie. */
  lemma NoSleeperMissesAZombie(steps: seq<Step>, p: nat, c: nat)
    requires Runs(Boot(), steps) && p < NPROC && c < NPROC && |After(Boot(), steps).procs| == NPROC
    requires var s := After(Boot(), steps);
             && s.g.holder == NONE && s.procs[p].pc.Asleep? && s.procs[p].st.Sleeping? && s.procs[c].parent == p
    ensures !After(Boot(), steps).procs[c].st.Zombie?
  {
    BootKeeps();
    RunKeeps(Boot(), steps);
    var s := After(Boot(), steps);
    assert p != c ==> Two(s.g, p, s.procs[p], c, s.procs[c]);
    assert One(s.g, c, s.procs[c]);
  }

  /** At every moment each process but init has a parent that is neither unused nor a zombie. */
  lemma EveryProcessHasALiveParent(steps: seq<Step>, c: nat)
    requires Runs(Boot(), steps) && c < NPROC && c != INIT
    ensures var s := After(Boot(), steps);
            && |s.procs| == NPROC
            && (IsLive(s.procs[c].st) || s.procs[c].st.Zombie? ==>
                  0 <= s.procs[c].parent < NPROC && IsLive(s.procs[s.procs[c].parent].st))
  {
    BootKeeps();
    RunKeeps(Boot(), steps);
    var s := After(Boot(), steps);
    assert One(s.g, c, s.procs[c]);
    if 0 <= s.procs[c].parent < NPROC {
      assert Two(s.g, s.procs[c].parent, s.procs[s.procs[c].parent], c, s.procs[c]);
    }
  }

  /** A zombie leaves its slot only when its current parent's wait returns its number, and by then
      it has switched away from its stack for good. */
  lemma ZombiesAreReapedByTheirParent(steps: seq<Step>, step: Step, c: nat)
    requires Runs(Boot(), steps) && Enabled(After(Boot(), steps), step)
    requires c < NPROC && |After(Boot(), steps).procs| == NPROC
    requires var s := After(Boot(), steps); s.procs[c].st.Zombie? && !Do(s, step).procs[c].st.Zombie?
    ensures var s, s' := After(Boot(), steps), Do(After(Boot(), steps), step);
            && step.Inspect? && s.procs[c].parent == step.p && s.procs[c].pc.Dead?
            && s'.procs[c].st.Unused? && s'.g.reaped == s.g.reaped + [s.procs[c].pid] && s.procs[c].pid !in s.g.reaped
  {
    BootKeeps();
    RunKeeps(Boot(), steps);
    Reaping(After(Boot(), steps), step, c);
  }

  lemma Reaping(s: State, step: Step, c: nat)
    requires Inv(s) && Enabled(s, step) && c < NPROC && s.procs[c].st.Zombie? && !Do(s, step).procs[c].st.Zombie?
    ensures step.Inspect? && s.procs[c].parent == step.p && s.procs[c].pc.Dead?
    ensures Do(s, step).procs[c].st.Unused? && s.procs[c].pid !in s.g.reaped
    ensures Do(s, step).g.reaped == s.g.reaped + [s.procs[c].pid]
  {
    hide Inv, GlobalOk, Do;
    Settings(s, step);
    DoProcs(s, step, c);
    assert One(s.g, c, s.procs[c]) by {
      OneOf(s, c);
    }
  }

  lemma OneOf(s: State, c: nat)
    requires Inv(s) && c < NPROC
    ensures One(s.g, c, s.procs[c])
  {
  }

  /** No process number is returned by two waits. */
  lemma NoNumberIsReapedTwice(steps: seq<Step>, i: nat, j: nat)
    requires Runs(Boot(), steps) && i < j < |After(Boot(), steps).g.reaped|
    ensures After(Boot(), steps).g.reaped[i] != After(Boot(), steps).g.reaped[j]
  {
    BootKeeps();
    RunKeeps(Boot(), steps);
  }
}
