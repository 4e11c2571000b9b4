/** Sleep locks (kernel/sleeplock.c) over sleep and wakeup (kernel/proc.c), as steps of any number
    of processes that interleave at lock boundaries. A process gives up the inner spinlock only
    once it holds its own lock, and wakeup needs that lock: so no wakeup is lost. */
module SleepLock {
  import opened Params
  import opened Sequences
  import W = SleepWakeup

  const NONE: int := -1
  /** Channels: this sleep lock, and everything else. */
  const LOCK: int := 0
  const ELSE: int := 1

  datatype Status = Runnable | Running | Sleeping

  datatype Pc =
    | Outside            // not using this lock
    | Acquire            // acquiresleep: about to take the inner spinlock
    | Test               // inner spinlock held, `locked` not yet looked at
    | Caught             // sleep: saw it locked, own lock taken, inner spinlock still held
    | Park               // sleep: inner spinlock released
    | Asleep             // switched away
    | Woken              // running again, own lock still held
    | Taken              // `locked` set, inner spinlock still held
    | Holder             // acquiresleep has returned
    | Release            // releasesleep: about to take the inner spinlock
    | Wakeup(j: nat)     // `locked` cleared, wakeup has passed the slots below j

  /** `own` tells whether the process holds its own lock. */
  datatype Proc = Proc(st: Status, pc: Pc, chan: int, own: bool)

  /** The inner spinlock's holder, the fields of the sleep lock, and how many slots the last
      wakeup has passed. */
  datatype Global = Global(holder: int, locked: bool, pid: nat, passed: nat)

  datatype State = State(procs: seq<Proc>, g: Global)

  datatype Step =
    | Begin(p: nat) | TakeInner(p: nat) | Decide(p: nat) | ReleaseInner(p: nat) | Switch(p: nat) | Resume(p: nat)
    | Leave(p: nat) | Unlock(p: nat) | WakeOne(p: nat)
    | Run(p: nat) | Yield(p: nat) | SleepElse(p: nat) | WakeElse(p: nat) | Kill(p: nat)

  /** The number of the process in slot p. */
  function PidOf(p: nat): nat {
    p + 1
  }

  predicate Can(g: Global, step: Step, P: Proc, Q: Proc) {
    match step
    case Begin(_) => P.st.Running? && P.pc.Outside?
    case TakeInner(_) => P.st.Running? && P.pc.Acquire? && g.holder == NONE
    case Decide(_) => P.st.Running? && P.pc.Test? && !P.own
    case ReleaseInner(_) => P.st.Running? && (P.pc.Caught? || P.pc.Taken?)
    case Switch(_) => P.st.Running? && P.pc.Park?
    case Resume(_) => P.st.Running? && P.pc.Woken?
    case Leave(_) => P.st.Running? && P.pc.Holder?
    case Unlock(_) => P.st.Running? && P.pc.Release? && g.holder == NONE
    case WakeOne(p) => P.st.Running? && P.pc.Wakeup? && (P.pc.j < NPROC && P.pc.j != p ==> !Q.own)
    case Run(_) => P.st.Runnable? && !P.own
    case Yield(_) => P.st.Running? && !P.own && (P.pc.Outside? || P.pc.Acquire? || P.pc.Holder? || P.pc.Release?)
    case SleepElse(_) => P.st.Running? && !P.own && (P.pc.Outside? || P.pc.Holder?)
    case WakeElse(_) => P.st.Sleeping? && !P.own && P.chan == ELSE
    case Kill(_) => !P.own
  }

  function Own(g: Global, step: Step, P: Proc): Proc {
    match step
    case Begin(_) => P.(pc := Acquire)
    case TakeInner(_) => P.(pc := Test)
    case Decide(_) => if g.locked then P.(pc := Caught, own := true) else P.(pc := Taken)
    case ReleaseInner(_) => if P.pc.Caught? then P.(pc := Park) else P.(pc := Holder)
    case Switch(_) => P.(st := Sleeping, chan := LOCK, own := false, pc := Asleep)
    case Resume(_) => P.(chan := NONE, own := false, pc := Acquire)
    case Leave(_) => P.(pc := Release)
    case Unlock(_) => P.(pc := Wakeup(0))
    case WakeOne(_) => if P.pc.Wakeup? && P.pc.j < NPROC then P.(pc := Wakeup(P.pc.j + 1)) else P.(pc := Outside)
    case Run(_) => if P.pc.Asleep? then P.(st := Running, own := true, pc := Woken) else P.(st := Running)
    case Yield(_) => P.(st := Runnable)
    case SleepElse(_) => P.(st := Sleeping, chan := ELSE)
    case WakeElse(_) => P.(st := Runnable, chan := NONE)
    case Kill(_) => P.(st := if P.st.Sleeping? then Runnable else P.st)
  }

  /** wakeup looks at one slot. */
  function Wake(Q: Proc): Proc {
    if Q.st.Sleeping? && Q.chan == LOCK then Q.(st := Runnable) else Q
  }

  function Globally(g: Global, step: Step, P: Proc): Global {
    match step
    case TakeInner(p) => g.(holder := p)
    case Decide(p) => if g.locked then g else g.(locked := true, pid := PidOf(p))
    case ReleaseInner(_) => g.(holder := NONE)
    case Unlock(p) => g.(holder := p, locked := false, pid := 0, passed := 0)
    case WakeOne(_) => if P.pc.Wakeup? && P.pc.j < NPROC then g.(passed := P.pc.j + 1) else g.(holder := NONE)
    case _ => g
  }

  /** The slot that wakeup looks at; the process's own for other steps. */
  function Partner(step: Step, P: Proc): nat {
    if step.WakeOne? && P.pc.Wakeup? && P.pc.j < NPROC then P.pc.j else step.p
  }

  predicate Enabled(s: State, step: Step) {
    && |s.procs| == NPROC && step.p < NPROC
    && Can(s.g, step, s.procs[step.p], s.procs[Partner(step, s.procs[step.p])])
  }

  function Do(s: State, step: Step): State
    requires Enabled(s, step)
  {
    var p := step.p;
    var P := s.procs[p];
    var q := Partner(step, P);
    State(s.procs[q := if q == p then P else Wake(s.procs[q])][p := Own(s.g, step, P)], Globally(s.g, step, P))
  }

  // the invariant

  predicate HoldsInner(c: Pc) {
    c.Test? || c.Caught? || c.Taken? || c.Wakeup?
  }

  predicate IsOwner(c: Pc) {
    c.Taken? || c.Holder? || c.Release?
  }

  /** p will sleep, or sleeps, until it is woken. */
  predicate Committed(P: Proc) {
    P.pc.Park? || (P.pc.Asleep? && P.st.Sleeping?)
  }

  predicate StateOk(P: Proc) {
    match P.pc
    case Outside => P.st.Sleeping? ==> P.chan == ELSE
    case Holder => P.st.Sleeping? ==> P.chan == ELSE
    case Acquire => !P.st.Sleeping?
    case Release => !P.st.Sleeping?
    case Asleep => P.st.Runnable? || (P.st.Sleeping? && P.chan == LOCK)
    case _ => P.st.Running?
  }

  predicate One(g: Global, p: nat, P: Proc) {
    && StateOk(P) && (P.own <==> P.pc.Caught? || P.pc.Park? || P.pc.Woken?)
    && (HoldsInner(P.pc) <==> g.holder == p)
    && (IsOwner(P.pc) <==> g.locked && g.pid == PidOf(p))
    && (P.pc.Caught? ==> g.locked)
    && (P.pc.Wakeup? ==> P.pc.j <= NPROC && g.passed == P.pc.j)
    && (HoldsInner(P.pc) && !P.pc.Wakeup? ==> g.passed == NPROC)
    && (Committed(P) ==> g.locked || p >= g.passed)
  }

  predicate GlobalOk(g: Global) {
    && (g.holder == NONE || 0 <= g.holder < NPROC) && (g.holder == NONE ==> g.passed == NPROC) && g.passed <= NPROC
    && (if g.locked then 1 <= g.pid <= NPROC else g.pid == 0)
  }

  ghost predicate Inv(s: State) {
    |s.procs| == NPROC && GlobalOk(s.g) && forall p: nat :: p < NPROC ==> One(s.g, p, s.procs[p])
  }

  lemma OwnOne(g: Global, step: Step, P: Proc, q: nat, Q: Proc)
    requires GlobalOk(g) && step.p < NPROC && One(g, step.p, P) && q == Partner(step, P) && Can(g, step, P, Q)
    ensures GlobalOk(Globally(g, step, P)) && One(Globally(g, step, P), step.p, Own(g, step, P))
  {
  }

  /** Any other slot: wakeup may have looked at it, or not. */
  lemma RestOne(g: Global, step: Step, P: Proc, q: nat, r: nat, R: Proc)
    requires GlobalOk(g) && step.p < NPROC && r < NPROC && r != step.p && One(g, step.p, P) && One(g, r, R)
    requires q == Partner(step, P) && Can(g, step, P, R) && r == q
    ensures One(Globally(g, step, P), r, Wake(R))
  {
  }

  lemma FarOne(g: Global, step: Step, P: Proc, q: nat, Q: Proc, r: nat, R: Proc)
    requires GlobalOk(g) && step.p < NPROC && r < NPROC && r != step.p && One(g, step.p, P) && One(g, r, R)
    requires q == Partner(step, P) && Can(g, step, P, Q) && r != q
    ensures One(Globally(g, step, P), r, R)
  {
  }

  lemma StepKeeps(s: State, step: Step)
    requires Inv(s) && Enabled(s, step)
    ensures Inv(Do(s, step))
  {
    hide One, GlobalOk, Own, Globally, Wake, Can;
    var P := s.procs[step.p];
    var q := Partner(step, P);
    OwnOne(s.g, step, P, q, s.procs[q]);
    forall r: nat | r < NPROC
      ensures One(Do(s, step).g, r, Do(s, step).procs[r])
    {
      if r != step.p {
        if r == q {
          RestOne(s.g, step, P, q, r, s.procs[r]);
        } else {
          FarOne(s.g, step, P, q, s.procs[q], r, s.procs[r]);
        }
      }
    }
  }

  // whole runs

  /** initsleeplock. */
  function Boot(): State {
    State(Copies(NPROC, Proc(Runnable, Outside, NONE, false)), Global(NONE, false, 0, NPROC))
  }

  predicate Runs(s: State, steps: seq<Step>)
    decreases |steps|
  {
    steps == [] || (Enabled(s, steps[0]) && Runs(Do(s, steps[0]), steps[1..]))
  }

  function After(s: State, steps: seq<Step>): State
    requires Runs(s, steps)
    decreases |steps|
  {
    if steps == [] then s else After(Do(s, steps[0]), steps[1..])
  }

  lemma {:induction false} RunKeeps(s: State, steps: seq<Step>)
    requires Inv(s) && Runs(s, steps)
    ensures Inv(After(s, steps))
    decreases |steps|
  {
    hide Inv, Enabled, Do;
    if steps != [] {
      StepKeeps(s, steps[0]);
      RunKeeps(Do(s, steps[0]), steps[1..]);
    }
  }

  lemma Reached(steps: seq<Step>)
    requires Runs(Boot(), steps)
    ensures Inv(After(Boot(), steps))
  {
    assert Inv(Boot());
    RunKeeps(Boot(), steps);
  }

  // the sleep lock uses sleep and wakeup as they are meant to be used

  /** Its condition: wait while it is locked. */
  predicate Waits(c: nat, locked: bool) {
    locked
  }

  function PcOf(c: Pc): W.Pc {
    match c
    case Test => W.Critical
    case Taken => W.Critical
    case Caught => W.Caught(0)
    case Park => W.Park(0)
    case Asleep => W.Asleep(0)
    case Woken => W.Woken
    case Wakeup(j) => W.Wakeup(0, j)
    case _ => W.Outside
  }

  /** A process that sleeps for another reason is only one that does not run. */
  function ProcOf(P: Proc): W.Proc {
    W.Proc(if P.st.Running? then W.Running else if P.st.Sleeping? && P.pc.Asleep? then W.Sleeping else W.Runnable,
           PcOf(P.pc), P.own)
  }

  function ProcsOf(procs: seq<Proc>): (r: seq<W.Proc>)
    ensures |r| == |procs| && forall p :: 0 <= p < |r| ==> r[p] == ProcOf(procs[p])
  {
    if procs == [] then [] else ProcsOf(procs[..|procs| - 1]) + [ProcOf(procs[|procs| - 1])]
  }

  function GlobalOf(g: Global): W.Global<bool> {
    W.Global(g.holder, g.locked, [g.passed])
  }

  function StateOf(s: State): W.State<bool> {
    W.State(ProcsOf(s.procs), GlobalOf(s.g))
  }

  /** What a step is in terms of sleep and wakeup. */
  function Steps(g: Global, step: Step, P: Proc): seq<W.Step<bool>> {
    match step
    case TakeInner(p) => [W.Take(p)]
    case Decide(p) => if g.locked then [W.Sleep(p, 0)] else [W.Change(p, true)]
    case ReleaseInner(p) => if P.pc.Caught? then [W.DropLk(p)] else [W.Release(p)]
    case Switch(p) => [W.Switch(p)]
    case Resume(p) => [W.Resume(p)]
    case Unlock(p) => [W.Take(p), W.Change(p, false), W.StartWakeup(p, 0)]
    case WakeOne(p) => if P.pc.Wakeup? && P.pc.j < NPROC then [W.WakeOne(p)] else [W.WakeOne(p), W.Release(p)]
    case Run(p) => [W.Run(p)]
    case Yield(p) => [W.Yield(p)]
    case SleepElse(p) => [W.Yield(p)]
    case Kill(p) => [W.Kill(p)]
    case _ => []
  }

  /** Steps that are one step of sleep and wakeup, or none. */
  lemma Local(g: Global, step: Step, P: Proc)
    requires GlobalOk(g) && step.p < NPROC && One(g, step.p, P) && Can(g, step, P, P) && !step.WakeOne? && !step.Unlock?
    ensures var ws := Steps(g, step, P);
            && |ws| <= 1
            && (ws == [] ==> ProcOf(Own(g, step, P)) == ProcOf(P) && Globally(g, step, P) == g)
            && (ws != [] ==>
                  && !ws[0].WakeOne? && ws[0].p == step.p && W.Can(Waits, GlobalOf(g), ws[0], ProcOf(P), ProcOf(P))
                  && W.Own(ws[0], ProcOf(P)) == ProcOf(Own(g, step, P))
                  && W.Globally(Waits, GlobalOf(g), ws[0], ProcOf(P)) == GlobalOf(Globally(g, step, P)))
  {
    var ws := Steps(g, step, P);
    if ws != [] {
      assert W.Globally(Waits, GlobalOf(g), ws[0], ProcOf(P)).passed == [Globally(g, step, P).passed];
    }
  }

  /** One step of sleep and wakeup that changes only the process's own slot. */
  lemma OwnStep(w: W.State<bool>, step: W.Step<bool>)
    requires |w.procs| == NPROC && step.p < NPROC && !step.WakeOne?
    requires W.Can(Waits, w.g, step, w.procs[step.p], w.procs[step.p])
    ensures W.Enabled(Waits, w, step)
    ensures W.Do(Waits, w, step) ==
            W.State(w.procs[step.p := W.Own(step, w.procs[step.p])], W.Globally(Waits, w.g, step, w.procs[step.p]))
  {
    hide W.Can, W.Own, W.Globally;
  }

  lemma OneRun(w: W.State<bool>, step: W.Step<bool>)
    requires W.Enabled(Waits, w, step)
    ensures W.Runs(Waits, w, [step]) && W.After(Waits, w, [step]) == W.Do(Waits, w, step)
  {
    hide W.Enabled, W.Do;
    assert [step][1..] == [];
  }

  lemma {:induction false} RunsJoin(w: W.State<bool>, a: seq<W.Step<bool>>, b: seq<W.Step<bool>>)
    requires W.Runs(Waits, w, a) && W.Runs(Waits, W.After(Waits, w, a), b)
    ensures W.Runs(Waits, w, a + b) && W.After(Waits, w, a + b) == W.After(Waits, W.After(Waits, w, a), b)
    decreases |a|
  {
    hide W.Enabled, W.Do;
    if a == [] {
      assert a + b == b;
    } else {
      assert (a + b)[0] == a[0] && (a + b)[1..] == a[1..] + b;
      RunsJoin(W.Do(Waits, w, a[0]), a[1..], b);
    }
  }

  /** The procs after a step that touches only slot p. */
  lemma ProcsUpdate(procs: seq<Proc>, p: nat, P: Proc)
    requires p < |procs|
    ensures ProcsOf(procs[p := P]) == ProcsOf(procs)[p := ProcOf(P)]
  {
    hide ProcOf;
    var a, b := ProcsOf(procs[p := P]), ProcsOf(procs)[p := ProcOf(P)];
    assert forall k :: 0 <= k < |procs| ==> a[k] == b[k];
  }

  lemma LocalRefines(s: State, step: Step)
    requires Inv(s) && Enabled(s, step) && !step.WakeOne? && !step.Unlock?
    ensures Refines(s, step)
  {
    hide One, GlobalOk, Own, Globally, Can, Steps, ProcOf, W.Can, W.Own, W.Globally, W.Runs, W.After, GlobalOf;
    var p := step.p;
    var P := s.procs[p];
    assert One(s.g, p, P);
    Local(s.g, step, P);
    ProcsUpdate(s.procs, p, Own(s.g, step, P));
    var ws := Steps(s.g, step, P);
    assert s.procs[p := P] == s.procs;
    if ws == [] {
      NoRun(StateOf(s));
      assert ProcsOf(s.procs)[p := ProcOf(P)] == ProcsOf(s.procs);
    } else {
      OwnStep(StateOf(s), ws[0]);
      OneRun(StateOf(s), ws[0]);
      assert ws == [ws[0]];
    }
  }

  lemma NoRun(w: W.State<bool>)
    ensures W.Runs(Waits, w, []) && W.After(Waits, w, []) == w
  {
  }

  /** A step of the sleep lock is a run of sleep and wakeup. */
  ghost predicate Refines(s: State, step: Step)
    requires Enabled(s, step)
  {
    var ws := Steps(s.g, step, s.procs[step.p]);
    W.Runs(Waits, StateOf(s), ws) && W.After(Waits, StateOf(s), ws) == StateOf(Do(s, step))
  }

  /** releasesleep up to wakeup: take the spinlock, change `locked`, call wakeup. */
  lemma UnlockLocal(g: Global, p: nat, P: Proc)
    requires GlobalOk(g) && p < NPROC && One(g, p, P) && Can(g, Unlock(p), P, P)
    ensures var g0, P0 := GlobalOf(g), ProcOf(P);
            && W.Can(Waits, g0, W.Take(p), P0, P0)
            && var g1, P1 := W.Globally(Waits, g0, W.Take(p), P0), W.Own<bool>(W.Take(p), P0);
            && W.Can(Waits, g1, W.Change(p, false), P1, P1)
            && var g2, P2 := W.Globally(Waits, g1, W.Change(p, false), P1), W.Own(W.Change(p, false), P1);
            && W.Can(Waits, g2, W.StartWakeup(p, 0), P2, P2)
            && W.Globally(Waits, g2, W.StartWakeup(p, 0), P2) == GlobalOf(Globally(g, Unlock(p), P))
            && W.Own<bool>(W.StartWakeup(p, 0), P2) == ProcOf(Own(g, Unlock(p), P))
  {
    var g2 := W.Globally(Waits, W.Globally(Waits, GlobalOf(g), W.Take(p), ProcOf(P)), W.Change(p, false), ProcOf(P));
    assert |g2.passed| == 1;
    assert g2.passed[0 := 0] == [0];
  }

  lemma UnlockRefines(s: State, p: nat)
    requires Inv(s) && Enabled(s, Unlock(p))
    ensures Refines(s, Unlock(p))
  {
    hide One, GlobalOk, Own, Globally, Can, ProcOf, W.Can, W.Own, W.Globally, W.Runs, W.After, GlobalOf;
    var P := s.procs[p];
    assert One(s.g, p, P);
    UnlockLocal(s.g, p, P);
    ProcsUpdate(s.procs, p, Own(s.g, Unlock(p), P));
    assert s.procs[p := P] == s.procs;
    var w0 := StateOf(s);
    OwnStep(w0, W.Take(p));
    OneRun(w0, W.Take(p));
    var w1 := W.Do(Waits, w0, W.Take(p));
    OwnStep(w1, W.Change(p, false));
    OneRun(w1, W.Change(p, false));
    var w2 := W.Do(Waits, w1, W.Change(p, false));
    OwnStep(w2, W.StartWakeup(p, 0));
    OneRun(w2, W.StartWakeup(p, 0));
    RunsJoin(w0, [W.Take(p)], [W.Change(p, false)]);
    RunsJoin(w0, [W.Take(p)] + [W.Change(p, false)], [W.StartWakeup(p, 0)]);
    assert Steps(s.g, Unlock(p), P) == [W.Take(p)] + [W.Change(p, false)] + [W.StartWakeup(p, 0)];
  }

  /** wakeup looks at another slot. */
  lemma WakeLocal(g: Global, p: nat, P: Proc, q: nat, Q: Proc)
    requires GlobalOk(g) && p < NPROC && q < NPROC && One(g, p, P) && One(g, q, Q) && Can(g, WakeOne(p), P, Q)
    requires P.pc.Wakeup? && P.pc.j < NPROC && q == P.pc.j
    ensures W.Can(Waits, GlobalOf(g), W.WakeOne(p), ProcOf(P), ProcOf(Q))
    ensures W.Globally(Waits, GlobalOf(g), W.WakeOne(p), ProcOf(P)) == GlobalOf(Globally(g, WakeOne(p), P))
    ensures W.Own<bool>(W.WakeOne(p), ProcOf(P)) == ProcOf(Own(g, WakeOne(p), P))
    ensures ProcOf(P).pc == W.Wakeup(0, q) && W.Wake(ProcOf(Q), 0) == ProcOf(Wake(Q))
  {
    assert [g.passed][0 := q + 1] == [q + 1];
  }

  lemma WakeRefines(s: State, p: nat)
    requires Inv(s) && Enabled(s, WakeOne(p)) && s.procs[p].pc.Wakeup? && s.procs[p].pc.j < NPROC
    ensures Refines(s, WakeOne(p))
  {
    hide One, GlobalOk, Own, Globally, Can, ProcOf, W.Can, W.Own, W.Globally, W.Runs, W.After, GlobalOf, W.Wake, Wake;
    var P := s.procs[p];
    var q := P.pc.j;
    assert One(s.g, p, P) && One(s.g, q, s.procs[q]);
    WakeLocal(s.g, p, P, q, s.procs[q]);
    var mid := s.procs[q := if q == p then P else Wake(s.procs[q])];
    ProcsUpdate(s.procs, q, if q == p then P else Wake(s.procs[q]));
    ProcsUpdate(mid, p, Own(s.g, WakeOne(p), P));
    var w := StateOf(s);
    assert W.Enabled(Waits, w, W.WakeOne(p));
    OneRun(w, W.WakeOne(p));
    assert W.Do(Waits, w, W.WakeOne(p)) == StateOf(Do(s, WakeOne(p)));
  }

  /** wakeup is over and the spinlock is released. */
  lemma LastLocal(g: Global, p: nat, P: Proc)
    requires GlobalOk(g) && p < NPROC && One(g, p, P) && Can(g, WakeOne(p), P, P) && P.pc.Wakeup? && P.pc.j >= NPROC
    ensures var g0, P0 := GlobalOf(g), ProcOf(P);
            && W.Can(Waits, g0, W.WakeOne(p), P0, P0) && P0.pc == W.Wakeup(0, NPROC)
            && var g1, P1 := W.Globally(Waits, g0, W.WakeOne(p), P0), W.Own<bool>(W.WakeOne(p), P0);
            && W.Can(Waits, g1, W.Release(p), P1, P1)
            && W.Globally(Waits, g1, W.Release(p), P1) == GlobalOf(Globally(g, WakeOne(p), P))
            && W.Own<bool>(W.Release(p), P1) == ProcOf(Own(g, WakeOne(p), P))
  {
  }

  lemma LastRefines(s: State, p: nat)
    requires Inv(s) && Enabled(s, WakeOne(p)) && s.procs[p].pc.Wakeup? && s.procs[p].pc.j >= NPROC
    ensures Refines(s, WakeOne(p))
  {
    hide One, GlobalOk, Own, Globally, Can, ProcOf, W.Can, W.Own, W.Globally, W.Runs, W.After, GlobalOf;
    var P := s.procs[p];
    assert One(s.g, p, P);
    LastLocal(s.g, p, P);
    ProcsUpdate(s.procs, p, Own(s.g, WakeOne(p), P));
    assert s.procs[p := P] == s.procs;
    var w0 := StateOf(s);
    assert W.Enabled(Waits, w0, W.WakeOne(p));
    OneRun(w0, W.WakeOne(p));
    var w1 := W.Do(Waits, w0, W.WakeOne(p));
    assert w0.procs[p := w0.procs[p]] == w0.procs;
    assert w1 == W.State(w0.procs[p := W.Own<bool>(W.WakeOne(p), ProcOf(P))], W.Globally(Waits, w0.g, W.WakeOne(p),
        ProcOf(P)));
    OwnStep(w1, W.Release(p));
    OneRun(w1, W.Release(p));
    RunsJoin(w0, [W.WakeOne(p)], [W.Release(p)]);
    assert Steps(s.g, WakeOne(p), P) == [W.WakeOne(p)] + [W.Release(p)];
  }

  lemma StepRefines(s: State, step: Step)
    requires Inv(s) && Enabled(s, step)
    ensures Refines(s, step)
  {
    hide Inv, Refines;
    if step.Unlock? {
      UnlockRefines(s, step.p);
    } else if step.WakeOne? {
      if s.procs[step.p].pc.j < NPROC {
        WakeRefines(s, step.p);
      } else {
        LastRefines(s, step.p);
      }
    } else {
      LocalRefines(s, step);
    }
  }

  /** So every run of the sleep lock is a run of sleep and wakeup for the condition `locked`. */
  lemma {:induction false} RunRefines(s: State, steps: seq<Step>) returns (ws: seq<W.Step<bool>>)
    requires Inv(s) && Runs(s, steps)
    ensures W.Runs(Waits, StateOf(s), ws) && W.After(Waits, StateOf(s), ws) == StateOf(After(s, steps))
    decreases |steps|
  {
    hide Inv, Enabled, Do, W.Runs, W.After, StateOf, Steps;
    if steps == [] {
      NoRun(StateOf(s));
      ws := [];
    } else {
      StepKeeps(s, steps[0]);
      StepRefines(s, steps[0]);
      var first := FirstSteps(s, steps[0]);
      var more := RunRefines(Do(s, steps[0]), steps[1..]);
      RunsJoin(StateOf(s), first, more);
      ws := first + more;
    }
  }

  lemma FirstSteps(s: State, step: Step) returns (ws: seq<W.Step<bool>>)
    requires Enabled(s, step) && Refines(s, step)
    ensures W.Runs(Waits, StateOf(s), ws) && W.After(Waits, StateOf(s), ws) == StateOf(Do(s, step))
  {
    ws := Steps(s.g, step, s.procs[step.p]);
  }

  /** Whenever the inner spinlock is free, a process sleeping on the lock means that it is locked. */
  lemma NoLostWakeup(steps: seq<Step>, p: nat)
    requires Runs(Boot(), steps) && p < NPROC && |After(Boot(), steps).procs| == NPROC
    requires var s := After(Boot(), steps);
             s.g.holder == NONE && s.procs[p].pc.Asleep? && s.procs[p].st.Sleeping?
    ensures After(Boot(), steps).g.locked
  {
    hide W.Runs, W.After, Runs, After;
    assert Inv(Boot());
    var ws := RunRefines(Boot(), steps);
    W.NoLostWakeup(Waits, StateOf(Boot()), ws, p, 0);
  }

  /** At most one process is between acquiresleep and releasesleep. */
  lemma MutualExclusion(steps: seq<Step>, p: nat, q: nat)
    requires Runs(Boot(), steps) && p < NPROC && q < NPROC && |After(Boot(), steps).procs| == NPROC
    requires var s := After(Boot(), steps); IsOwner(s.procs[p].pc) && IsOwner(s.procs[q].pc)
    ensures p == q
  {
    Reached(steps);
    var s := After(Boot(), steps);
    assert One(s.g, p, s.procs[p]) && One(s.g, q, s.procs[q]);
  }

  /** holdingsleep. */
  predicate HoldingSleep(g: Global, p: nat) {
    g.locked && g.pid == PidOf(p)
  }

  /** holdingsleep tells exactly the process that holds the lock, and a locked lock has one. */
  lemma HoldingSleepIsExact(steps: seq<Step>, p: nat)
    requires Runs(Boot(), steps) && p < NPROC
    ensures var s := After(Boot(), steps);
            && |s.procs| == NPROC
            && (HoldingSleep(s.g, p) <==> IsOwner(s.procs[p].pc))
            && (s.g.locked ==> 1 <= s.g.pid <= NPROC && IsOwner(s.procs[s.g.pid - 1].pc))
  {
    Reached(steps);
    var s := After(Boot(), steps);
    assert One(s.g, p, s.procs[p]);
    if s.g.locked {
      assert One(s.g, s.g.pid - 1, s.procs[s.g.pid - 1]);
    }
  }
}
