/** sleep and wakeup (kernel/proc.c) for any condition: processes test it under a lock lk and sleep
    on a channel while it says so, and whoever changes it calls wakeup on every channel that need not
    wait any longer before it releases lk. Sleep locks use sleep and wakeup in this way. */
module SleepWakeup {
  import opened Params

  const NONE: int := -1

  datatype Status = Runnable | Running | Sleeping

  datatype Pc =
    | Outside                  // does not hold lk, or is about to take it again
    | Critical                 // holds lk: may test and change the condition
    | Caught(c: nat)           // sleep: own lock taken, lk still held
    | Park(c: nat)             // sleep: lk released
    | Asleep(c: nat)           // switched away
    | Woken                    // running again, own lock still held
    | Wakeup(c: nat, j: nat)   // wakeup has passed the slots below j

  /** `own` tells whether the process holds its own lock. */
  datatype Proc = Proc(st: Status, pc: Pc, own: bool)

  /** A condition: does a process that sleeps on channel c have to wait when the state is x? */
  type Cond<!X> = (nat, X) -> bool

  /** lk's holder, the state that lk protects, and for each channel how many slots a wakeup has passed
      since the channel need not wait any longer. */
  datatype Global<X> = Global(holder: int, x: X, passed: seq<nat>)

  datatype State<X> = State(procs: seq<Proc>, g: Global<X>)

  datatype Step<X> =
    | Take(p: nat) | Change(p: nat, x: X) | Sleep(p: nat, c: nat) | DropLk(p: nat) | Switch(p: nat) | Resume(p: nat)
    | StartWakeup(p: nat, c: nat) | WakeOne(p: nat) | Release(p: nat) | Run(p: nat) | Yield(p: nat) | Kill(p: nat)

  /** Every channel that need not wait has been woken. */
  predicate AllWoken<X>(g: Global<X>) {
    forall c :: 0 <= c < |g.passed| ==> g.passed[c] == NPROC
  }

  ghost predicate Can<X>(wait: Cond<X>, g: Global<X>, step: Step<X>, P: Proc, Q: Proc) {
    match step
    case Take(_) => P.st.Running? && P.pc.Outside? && g.holder == NONE
    case Change(_, _) => P.st.Running? && P.pc.Critical?
    case Sleep(_, c) => P.st.Running? && P.pc.Critical? && c < |g.passed| && wait(c, g.x) && AllWoken(g)
    case DropLk(_) => P.st.Running? && P.pc.Caught?
    case Switch(_) => P.st.Running? && P.pc.Park?
    case Resume(_) => P.st.Running? && P.pc.Woken?
    case StartWakeup(_, c) => P.st.Running? && P.pc.Critical? && c < |g.passed|
    case WakeOne(p) => P.st.Running? && P.pc.Wakeup? && (P.pc.j < NPROC && P.pc.j != p ==> !Q.own)
    case Release(_) => P.st.Running? && P.pc.Critical? && AllWoken(g)
    case Run(_) => P.st.Runnable? && !P.own
    case Yield(_) => P.st.Running? && P.pc.Outside?
    case Kill(_) => !P.own
  }

  function Own<X>(step: Step<X>, P: Proc): Proc {
    match step
    case Take(_) => P.(pc := Critical)
    case Sleep(_, c) => P.(pc := Caught(c), own := true)
    case DropLk(_) => if P.pc.Caught? then P.(pc := Park(P.pc.c)) else P
    case Switch(_) => if P.pc.Park? then Proc(Sleeping, Asleep(P.pc.c), false) else P
    case Resume(_) => P.(pc := Outside, own := false)
    case StartWakeup(_, c) => P.(pc := Wakeup(c, 0))
    case WakeOne(_) =>
      if P.pc.Wakeup? && P.pc.j < NPROC then P.(pc := Wakeup(P.pc.c, P.pc.j + 1)) else P.(pc := Critical)
    case Release(_) => P.(pc := Outside)
    case Run(_) => if P.pc.Asleep? then Proc(Running, Woken, true) else P.(st := Running)
    case Yield(_) => P.(st := Runnable)
    case Kill(_) => P.(st := if P.st.Sleeping? then Runnable else P.st)
    case Change(_, _) => P
  }

  /** wakeup(c) looks at one slot. */
  function Wake(Q: Proc, c: nat): Proc {
    if Q.st.Sleeping? && Q.pc == Asleep(c) then Q.(st := Runnable) else Q
  }

  /** Channels that had to wait and need not any longer are to be woken from the first slot on. */
  ghost function Due<X>(wait: Cond<X>, passed: seq<nat>, x: X, x': X): (r: seq<nat>)
    ensures |r| == |passed|
    ensures forall c :: 0 <= c < |r| ==> r[c] == if wait(c, x) && !wait(c, x') then 0 else passed[c]
  {
    seq(|passed|, c requires 0 <= c < |passed| => if wait(c, x) && !wait(c, x') then 0 else passed[c])
  }

  ghost function Globally<X>(wait: Cond<X>, g: Global<X>, step: Step<X>, P: Proc): Global<X> {
    match step
    case Take(p) => g.(holder := p)
    case Change(_, x) => g.(x := x, passed := Due(wait, g.passed, g.x, x))
    case DropLk(_) => g.(holder := NONE)
    case StartWakeup(_, c) => if c < |g.passed| then g.(passed := g.passed[c := 0]) else g
    case WakeOne(_) =>
      if P.pc.Wakeup? && P.pc.j < NPROC && P.pc.c < |g.passed| then g.(passed := g.passed[P.pc.c := P.pc.j + 1]) else g
    case Release(_) => g.(holder := NONE)
    case _ => g
  }

  function Partner<X>(step: Step<X>, P: Proc): nat {
    if step.WakeOne? && P.pc.Wakeup? && P.pc.j < NPROC then P.pc.j else step.p
  }

  ghost predicate Enabled<X>(wait: Cond<X>, s: State<X>, step: Step<X>) {
    && |s.procs| == NPROC && step.p < NPROC
    && Can(wait, s.g, step, s.procs[step.p], s.procs[Partner(step, s.procs[step.p])])
  }

  ghost function Do<X>(wait: Cond<X>, s: State<X>, step: Step<X>): State<X>
    requires Enabled(wait, s, step)
  {
    var p := step.p;
    var P := s.procs[p];
    var q := Partner(step, P);
    State(s.procs[q := if q == p || !P.pc.Wakeup? then s.procs[q] else Wake(s.procs[q], P.pc.c)][p := Own(step, P)],
          Globally(wait, s.g, step, P))
  }

  // the invariant

  predicate HoldsLk(c: Pc) {
    c.Critical? || c.Caught? || c.Wakeup?
  }

  /** The channel on which p will sleep, or sleeps, until it is woken. */
  predicate Committed(P: Proc, c: nat) {
    P.pc == Park(c) || (P.pc == Asleep(c) && P.st.Sleeping?)
  }

  predicate StateOk(P: Proc) {
    match P.pc
    case Outside => !P.st.Sleeping?
    case Asleep(_) => P.st.Runnable? || P.st.Sleeping?
    case _ => P.st.Running?
  }

  ghost predicate One<X>(wait: Cond<X>, g: Global<X>, p: nat, P: Proc) {
    && StateOk(P) && (P.own <==> P.pc.Caught? || P.pc.Park? || P.pc.Woken?)
    && (HoldsLk(P.pc) <==> g.holder == p)
    && (P.pc.Caught? ==> P.pc.c < |g.passed| && wait(P.pc.c, g.x) && AllWoken(g))
    && (P.pc.Wakeup? ==> P.pc.c < |g.passed| && P.pc.j <= NPROC && g.passed[P.pc.c] == P.pc.j)
    && (forall c: nat :: Committed(P, c) ==> c < |g.passed| && (wait(c, g.x) || p >= g.passed[c]))
  }

  predicate GlobalOk<X>(g: Global<X>) {
    && (g.holder == NONE || 0 <= g.holder < NPROC) && (g.holder == NONE ==> AllWoken(g))
  }

  ghost predicate Inv<X>(wait: Cond<X>, s: State<X>) {
    |s.procs| == NPROC && GlobalOk(s.g) && forall p: nat :: p < NPROC ==> One(wait, s.g, p, s.procs[p])
  }

  lemma OwnOne<X>(wait: Cond<X>, g: Global<X>, step: Step<X>, P: Proc, Q: Proc)
    requires GlobalOk(g) && step.p < NPROC && One(wait, g, step.p, P) && Can(wait, g, step, P, Q)
    ensures GlobalOk(Globally(wait, g, step, P)) && One(wait, Globally(wait, g, step, P), step.p, Own(step, P))
  {
  }

  /** The slot that wakeup looks at. */
  lemma NearOne<X>(wait: Cond<X>, g: Global<X>, step: Step<X>, P: Proc, r: nat, R: Proc)
    requires GlobalOk(g) && step.p < NPROC && r < NPROC && r != step.p && One(wait, g, step.p, P) && One(wait, g, r, R)
    requires Can(wait, g, step, P, R) && r == Partner(step, P)
    ensures P.pc.Wakeup? && One(wait, Globally(wait, g, step, P), r, Wake(R, P.pc.c))
  {
  }

  lemma FarOne<X>(wait: Cond<X>, g: Global<X>, step: Step<X>, P: Proc, Q: Proc, r: nat, R: Proc)
    requires GlobalOk(g) && step.p < NPROC && r < NPROC && r != step.p && One(wait, g, step.p, P) && One(wait, g, r, R)
    requires Can(wait, g, step, P, Q) && r != Partner(step, P)
    ensures One(wait, Globally(wait, g, step, P), r, R)
  {
  }

  lemma StepKeeps<X>(wait: Cond<X>, s: State<X>, step: Step<X>)
    requires Inv(wait, s) && Enabled(wait, s, step)
    ensures Inv(wait, Do(wait, s, step))
  {
    hide One, GlobalOk, Own, Globally, Wake, Can;
    var P := s.procs[step.p];
    var q := Partner(step, P);
    OwnOne(wait, s.g, step, P, s.procs[q]);
    forall r: nat | r < NPROC
      ensures One(wait, Do(wait, s, step).g, r, Do(wait, s, step).procs[r])
    {
      if r != step.p {
        if r == q {
          NearOne(wait, s.g, step, P, r, s.procs[r]);
        } else {
          FarOne(wait, s.g, step, P, s.procs[q], r, s.procs[r]);
        }
      }
    }
  }

  // whole runs

  ghost predicate Runs<X>(wait: Cond<X>, s: State<X>, steps: seq<Step<X>>)
    decreases |steps|
  {
    steps == [] || (Enabled(wait, s, steps[0]) && Runs(wait, Do(wait, s, steps[0]), steps[1..]))
  }

  ghost function After<X>(wait: Cond<X>, s: State<X>, steps: seq<Step<X>>): State<X>
    requires Runs(wait, s, steps)
    decreases |steps|
  {
    if steps == [] then s else After(wait, Do(wait, s, steps[0]), steps[1..])
  }

  lemma {:induction false} RunKeeps<X>(wait: Cond<X>, s: State<X>, steps: seq<Step<X>>)
    requires Inv(wait, s) && Runs(wait, s, steps)
    ensures Inv(wait, After(wait, s, steps))
    decreases |steps|
  {
    hide Inv, Enabled, Do;
    if steps != [] {
      StepKeeps(wait, s, steps[0]);
      RunKeeps(wait, Do(wait, s, steps[0]), steps[1..]);
    }
  }

  /** Nobody sleeps, lk is free, and the state is anything. */
  predicate Start<X>(s: State<X>) {
    && |s.procs| == NPROC && s.g.holder == NONE && AllWoken(s.g)
    && forall p :: 0 <= p < NPROC ==> s.procs[p] == Proc(Runnable, Outside, false)
  }

  /** No wakeup is lost: for any condition, after any run, whenever lk is free a process that sleeps
      on a channel has to. */
  lemma NoLostWakeup<X>(wait: Cond<X>, s0: State<X>, steps: seq<Step<X>>, p: nat, c: nat)
    requires Start(s0) && Runs(wait, s0, steps) && p < NPROC && |After(wait, s0, steps).procs| == NPROC
    requires var s := After(wait, s0, steps);
             s.g.holder == NONE && s.procs[p].pc == Asleep(c) && s.procs[p].st.Sleeping?
    ensures wait(c, After(wait, s0, steps).g.x)
  {
    assert Inv(wait, s0);
    RunKeeps(wait, s0, steps);
    var s := After(wait, s0, steps);
    assert One(wait, s.g, p, s.procs[p]) && Committed(s.procs[p], c);
  }
}
