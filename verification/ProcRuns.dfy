/** Whole runs of the process table: every critical section of ptable.lock is one step, in any
    order, on any number of CPUs.

    A step of process p needs p to be RUNNING.  fork is split at the places where the source
    holds no lock (allocate, then give up or publish); the assignment of the child's parent,
    which only the forking process can observe, is part of publishing.  The timer handler is
    split into its wakeup and its boost; tickslock keeps the next tick out until the boost. */
module ProcRuns {
  import opened Common
  import opened ProcTable

  const BOOSTTIMER: nat := 100
  const TICKS: Chan := OnOther(0)   // the address of the variable ticks

  datatype Doing = Free | Forking(child: int)

  datatype Sys = Sys(
    t: Table,
    doing: seq<Doing>,
    ticks: nat,           // uint ticks
    boostDue: bool,       // the timer handler is about to boost
    reaped: seq<nat>)     // pids returned by wait so far

  datatype Step =
    | ForkStart(p: int)
    | ForkFail(p: int)
    | ForkDone(p: int)
    | ExitStep(p: int)
    | WaitStep(p: int)
    | SleepStep(p: int, id: nat)
    | WakeStep(id: nat)
    | KillStep(pid: nat)
    | ChargeStep(p: int)
    | DispatchStep
    | ClockStep
    | BoostStep

  ghost predicate Running(s: Sys, p: int)
    requires Shaped(s.t)
  {
    IsSlot(p) && s.t.procs[p].state == RUNNING
  }

  ghost predicate Enabled(s: Sys, a: Step) {
    Shaped(s.t) && Queued(s.t) && |s.doing| == NPROC &&
    match a
    case ForkStart(p) => Running(s, p) && s.doing[p] == Free
    case ForkFail(p) => Running(s, p) && s.doing[p].Forking? && IsSlot(s.doing[p].child)
    case ForkDone(p) => Running(s, p) && s.doing[p].Forking? && IsSlot(s.doing[p].child)
    case ExitStep(p) => Running(s, p) && s.doing[p] == Free && p != INIT
    case WaitStep(p) => Running(s, p) && s.doing[p] == Free
    case SleepStep(p, _) => Running(s, p)
    case WakeStep(_) => true
    case KillStep(_) => true
    case ChargeStep(p) => Running(s, p)
    case DispatchStep => FirstBusy(s.t.queues) < NPRIO
    case ClockStep => !s.boostDue
    case BoostStep => s.boostDue
  }

  ghost function Do(s: Sys, a: Step): Sys
    requires Enabled(s, a)
  {
    match a
    case ForkStart(p) =>
      if FreeSlot(s.t) == NPROC then s
      else s.(t := Alloc(s.t), doing := s.doing[p := Forking(FreeSlot(s.t))])
    case ForkFail(p) => s.(t := Abandon(s.t, s.doing[p].child), doing := s.doing[p := Free])
    case ForkDone(p) => s.(t := Publish(s.t, p, s.doing[p].child), doing := s.doing[p := Free])
    case ExitStep(p) => s.(t := Exit(s.t, p))
    case WaitStep(p) =>
      var r := WaitOutcome(s.t, p);
      s.(t := Wait(s.t, p), reaped := if r.Reaped? then s.reaped + [r.pid] else s.reaped)
    case SleepStep(p, id) => s.(t := Sleep(s.t, p, OnOther(id)))
    case WakeStep(id) => s.(t := Wakeup(s.t, OnOther(id)))
    case KillStep(pid) => s.(t := Kill(s.t, pid))
    case ChargeStep(p) => s.(t := Charge(s.t, p))
    case DispatchStep => s.(t := Dispatch(s.t))
    case ClockStep =>
      var now := (s.ticks + 1) % UINT;
      s.(t := Wakeup(s.t, TICKS), ticks := now, boostDue := now % BOOSTTIMER == 0)
    case BoostStep => s.(t := Boost(s.t), boostDue := false)
  }

  ghost function Start(): Sys {
    Sys(Initial(), seq(NPROC, _ => Free), 0, false, [])
  }

  ghost predicate CanRun(s: Sys, run: seq<Step>)
    decreases |run|
  {
    run == [] || (Enabled(s, run[0]) && CanRun(Do(s, run[0]), run[1..]))
  }

  ghost function After(s: Sys, run: seq<Step>): Sys
    requires CanRun(s, run)
    decreases |run|
  {
    if run == [] then s else After(Do(s, run[0]), run[1..])
  }

  // ---- What the steps do to the queues ----

  lemma {:induction false} YieldQueued(t: Table, p: int)
    requires Shaped(t) && Queued(t) && IsSlot(p) && t.procs[p].state == RUNNING
    ensures Queued(Yield(t, p)) && Appends(t, Yield(t, p))
  {
    hide Queued;
    var q := t.procs[p];
    var prio := q.priority + if q.priority == NPRIO - 1 then 0 else 1;
    var u := t.(procs := t.procs[p := q.(priority := prio, ticks := 0)]);
    QueuedFrame(t, u);
    EnqueueQueued(u, p);
  }

  lemma {:induction false} ChargeQueued(t: Table, p: int)
    requires Shaped(t) && Queued(t) && IsSlot(p) && t.procs[p].state == RUNNING
    ensures Queued(Charge(t, p)) && Appends(t, Charge(t, p))
  {
    hide Queued;
    var u := t.(procs := t.procs[p := t.procs[p].(ticks := t.procs[p].ticks + 1)]);
    QueuedFrame(t, u);
    YieldQueued(u, p);
  }

  lemma {:induction false} PublishQueued(t: Table, p: int, np: int)
    requires Shaped(t) && Queued(t) && IsSlot(np) && t.procs[np].state != RUNNABLE
    ensures Queued(Publish(t, p, np)) && Appends(t, Publish(t, p, np))
  {
    hide Queued;
    var u := t.(procs := t.procs[np := t.procs[np].(parent := p)]);
    QueuedFrame(t, u);
    EnqueueQueued(u, np);
  }

  lemma {:induction false} KillQueued(t: Table, pid: nat)
    requires Shaped(t) && Queued(t)
    ensures Queued(Kill(t, pid)) && Appends(t, Kill(t, pid))
  {
    hide Queued;
    var p := PidSlot(t, pid);
    if p < NPROC {
      var u := t.(procs := t.procs[p := t.procs[p].(killed := true)]);
      QueuedFrame(t, u);
      if t.procs[p].state == SLEEPING { EnqueueQueued(u, p); }
    }
  }

  /** exit wakes the parent of p if it waits, and init if it waits and inherits a zombie. */
  ghost predicate WokenByExit(t: Table, p: int, q: int)
    requires Shaped(t) && IsSlot(p) && IsSlot(q)
  {
    Wakes(t, OnProc(t.procs[p].parent), 0, q) || (OrphanZombie(t, p, 0) && Wakes(t, OnProc(INIT), 0, q))
  }

  lemma {:induction false} ExitEffect(t: Table, p: int)
    requires Shaped(t) && Queued(t) && IsSlot(p) && t.procs[p].state == RUNNING
    ensures var r := Exit(t, p);
            && Queued(r) && Appends(t, r)
            && forall q :: 0 <= q < NPROC ==>
                 r.procs[q] == t.procs[q].(
                   parent := if t.procs[q].parent == p then INIT else t.procs[q].parent,
                   state := if q == p then ZOMBIE else if WokenByExit(t, p, q) then RUNNABLE else t.procs[q].state)
  {
    hide Queued;
    var u := Wakeup(t, OnProc(t.procs[p].parent));
    WakeEffect(t, OnProc(t.procs[p].parent), 0);
    ReparentEffect(u, p, 0);
    assert OrphanZombie(t, p, 0) <==> OrphanZombie(u, p, 0);
    QueuedFrame(ReparentFrom(u, p, 0), Exit(t, p));
  }

  /** The queues stay right, the highest-priority one loses nothing, what is runnable stays
      runnable, and no ticks are charged. */
  ghost predicate Quiet(t: Table, u: Table)
    requires Shaped(t)
  {
    && Shaped(u) && Queued(u) && t.queues[0] <= u.queues[0]
    && forall p :: 0 <= p < NPROC ==>
         u.procs[p].ticks == t.procs[p].ticks
         && (t.procs[p].state == RUNNABLE ==> u.procs[p].state == RUNNABLE)
  }

  lemma {:induction false} QuietWake(t: Table, chan: Chan)
    requires Shaped(t) && Queued(t)
    ensures Quiet(t, Wakeup(t, chan))
  {
    hide Queued;
    WakeEffect(t, chan, 0);
  }

  lemma {:induction false} QuietKill(t: Table, pid: nat)
    requires Shaped(t) && Queued(t)
    ensures Quiet(t, Kill(t, pid))
  {
    hide Queued;
    KillQueued(t, pid);
  }

  lemma {:induction false} QuietExit(t: Table, p: int)
    requires Shaped(t) && Queued(t) && IsSlot(p) && t.procs[p].state == RUNNING
    ensures Quiet(t, Exit(t, p))
  {
    hide Queued, Exit;
    ExitEffect(t, p);
  }

  lemma {:induction false} QuietAlloc(t: Table)
    requires Shaped(t) && Queued(t) && FreeSlot(t) < NPROC
    ensures Quiet(t, Alloc(t))
  {
    hide Queued;
    QueuedFrame(t, Alloc(t));
  }

  lemma {:induction false} QuietAbandon(t: Table, np: int)
    requires Shaped(t) && Queued(t) && IsSlot(np) && t.procs[np].state == EMBRYO
    ensures Quiet(t, Abandon(t, np))
  {
    hide Queued;
    QueuedFrame(t, Abandon(t, np));
  }

  lemma {:induction false} QuietPublish(t: Table, p: int, np: int)
    requires Shaped(t) && Queued(t) && IsSlot(np) && t.procs[np].state == EMBRYO
    ensures Quiet(t, Publish(t, p, np))
  {
    hide Queued;
    PublishQueued(t, p, np);
  }

  lemma {:induction false} QuietSleep(t: Table, p: int, chan: Chan)
    requires Shaped(t) && Queued(t) && IsSlot(p) && t.procs[p].state == RUNNING
    ensures Quiet(t, Sleep(t, p, chan))
  {
    hide Queued;
    QueuedFrame(t, Sleep(t, p, chan));
  }

  lemma {:induction false} QuietWait(t: Table, p: int)
    requires Shaped(t) && Queued(t) && IsSlot(p) && t.procs[p].state == RUNNING
    ensures Quiet(t, Wait(t, p))
  {
    hide Queued, HasKids;
    match WaitOutcome(t, p)
    case Reaped(_) => QueuedFrame(t, Reap(t, ZombieChild(t, p)));
    case NoChildren =>
    case Slept => QuietSleep(t, p, OnProc(p));
  }

  lemma {:induction false} QuietBoost(t: Table)
    requires Shaped(t) && Queued(t)
    ensures Quiet(t, Boost(t))
  {
    hide Queued;
    BoostQueued(t);
    FlattenPrefix(t.queues, NPRIO);
  }

  /** Every step except a dispatch and a timer charge. */
  lemma {:induction false} QuietStep(s: Sys, a: Step)
    requires Enabled(s, a) && Forks(s) && !a.DispatchStep? && !a.ChargeStep?
    ensures Quiet(s.t, Do(s, a).t)
  {
    hide Queued, Forks, Exit, Kill, Alloc, Abandon, Publish, Sleep, Wait, WaitOutcome, Wakeup, Boost, FreeSlot;
    match a
    case ForkStart(p) => if FreeSlot(s.t) < NPROC { QuietAlloc(s.t); }
    case ForkFail(p) => EmbryoOf(s, p); QuietAbandon(s.t, s.doing[p].child);
    case ForkDone(p) => EmbryoOf(s, p); QuietPublish(s.t, p, s.doing[p].child);
    case ExitStep(p) => QuietExit(s.t, p);
    case WaitStep(p) => QuietWait(s.t, p);
    case SleepStep(p, id) => QuietSleep(s.t, p, OnOther(id));
    case WakeStep(id) => QuietWake(s.t, OnOther(id));
    case KillStep(pid) => QuietKill(s.t, pid);
    case ClockStep => QuietWake(s.t, TICKS);
    case BoostStep => QuietBoost(s.t);
  }

  /** After every step a process is runnable iff it is in the queue of its priority, exactly
      once; and only a dispatch takes anything off the highest-priority queue. */
  lemma {:induction false} QueueStep(s: Sys, a: Step)
    requires Enabled(s, a) && Forks(s)
    ensures var u := Do(s, a).t;
            && Shaped(u) && Queued(u)
            && (!a.DispatchStep? ==> s.t.queues[0] <= u.queues[0])
  {
    hide Queued, Forks, Charge;
    match a
    case ChargeStep(p) => ChargeQueued(s.t, p);
    case DispatchStep => DispatchQueued(s.t);
    case _ => QuietStep(s, a);
  }

  lemma {:induction false} FlattenPrefix(qs: seq<seq<int>>, n: nat)
    requires 1 <= n <= |qs|
    ensures qs[0] <= Flatten(qs[..n]) && (n == |qs| ==> Flatten(qs[..n]) == Flatten(qs))
  {
    assert qs[..|qs|] == qs;
    assert qs[..n][..n - 1] == qs[..n - 1];
    if n == 1 {
      assert Flatten(qs[..1]) == [] + qs[0];
    } else {
      FlattenPrefix(qs, n - 1);
    }
  }

  // ---- Process life cycle ----

  predicate Alive(q: Proc) {
    q.state == SLEEPING || q.state == RUNNABLE || q.state == RUNNING
  }

  /** A process is inside fork exactly when some embryo is its own. */
  ghost predicate Forks(s: Sys) {
    && Shaped(s.t) && |s.doing| == NPROC
    && (forall p :: 0 <= p < NPROC && s.doing[p].Forking? ==>
          Alive(s.t.procs[p]) && IsSlot(s.doing[p].child) && s.t.procs[s.doing[p].child].state == EMBRYO)
    && (forall p, q :: 0 <= p < q < NPROC && s.doing[p].Forking? && s.doing[q].Forking? ==>
          s.doing[p].child != s.doing[q].child)
  }

  /** init never goes away; everybody else past EMBRYO has a live parent. */
  ghost predicate Families(t: Table)
    requires Shaped(t)
  {
    && Alive(t.procs[INIT]) && t.procs[INIT].parent == NULL
    && (forall p :: 0 <= p < NPROC ==> t.procs[p].parent != p)
    && (forall p :: 0 <= p < NPROC && p != INIT && (Alive(t.procs[p]) || t.procs[p].state == ZOMBIE) ==>
          IsSlot(t.procs[p].parent) && Alive(t.procs[t.procs[p].parent]))
    && (forall p :: 0 <= p < NPROC && (t.procs[p].state == UNUSED || t.procs[p].state == EMBRYO) ==>
          t.procs[p].parent == NULL)
  }

  /** A process asleep in wait has a child, and none of its children is a zombie. */
  ghost predicate Waiters(t: Table)
    requires Shaped(t)
  {
    forall p :: 0 <= p < NPROC && t.procs[p].state == SLEEPING && t.procs[p].chan.OnProc? ==>
      t.procs[p].chan.slot == p && HasKids(t, p) && !OrphanZombie(t, p, 0)
  }

  /** Live pids are distinct, and no pid is returned by wait twice. */
  ghost predicate Pids(s: Sys)
    requires Shaped(s.t)
  {
    && (forall p :: 0 <= p < NPROC && s.t.procs[p].state != UNUSED ==>
          s.t.procs[p].pid < s.t.nextpid && s.t.procs[p].pid !in s.reaped)
    && (forall p, q :: 0 <= p < q < NPROC && s.t.procs[p].state != UNUSED && s.t.procs[q].state != UNUSED ==>
          s.t.procs[p].pid != s.t.procs[q].pid)
    && (forall i :: 0 <= i < |s.reaped| ==> s.reaped[i] < s.t.nextpid)
    && (forall i, j :: 0 <= i < j < |s.reaped| ==> s.reaped[i] != s.reaped[j])
  }

  /** Nobody has used up the longest quantum. */
  ghost predicate Quanta(t: Table)
    requires Shaped(t)
  {
    forall p :: 0 <= p < NPROC ==> t.procs[p].ticks < Pow2(NPRIO - 1)
  }

  ghost predicate Inv(s: Sys) {
    Life(s) && Queued(s.t) && Quanta(s.t)
  }

  // Frame lemmas: what a step has to leave alone for each part of the invariant to survive.

  ghost predicate Asleep(q: Proc) {
    q.state == SLEEPING && q.chan.OnProc?
  }

  lemma {:induction false} ForksKept(s: Sys, r: Sys)
    requires Forks(s) && Shaped(r.t) && r.doing == s.doing
    requires forall p :: 0 <= p < NPROC && s.doing[p].Forking? && Alive(s.t.procs[p]) ==> Alive(r.t.procs[p])
    requires forall p :: 0 <= p < NPROC && s.t.procs[p].state == EMBRYO ==> r.t.procs[p].state == EMBRYO
    ensures Forks(r)
  {
  }

  lemma {:induction false} FamiliesKept(t: Table, u: Table)
    requires Shaped(t) && Shaped(u) && Families(t)
    requires forall p :: 0 <= p < NPROC ==>
               && u.procs[p].parent == t.procs[p].parent
               && (Alive(t.procs[p]) ==> Alive(u.procs[p]))
               && (u.procs[p].state in {UNUSED, EMBRYO} <==> t.procs[p].state in {UNUSED, EMBRYO})
    ensures Families(u)
  {
  }

  lemma {:induction false} WaitersKept(t: Table, u: Table)
    requires Shaped(t) && Shaped(u) && Waiters(t)
    requires forall p :: 0 <= p < NPROC && Asleep(u.procs[p]) ==>
               Asleep(t.procs[p]) && u.procs[p].chan == t.procs[p].chan
    requires forall p, c :: 0 <= p < NPROC && 0 <= c < NPROC && Asleep(u.procs[p]) && t.procs[c].parent == p ==>
               u.procs[c].parent == p
    requires forall p, c :: 0 <= p < NPROC && 0 <= c < NPROC && Asleep(u.procs[p])
                            && u.procs[c].parent == p && u.procs[c].state == ZOMBIE ==>
               t.procs[c].parent == p && t.procs[c].state == ZOMBIE
    ensures Waiters(u)
  {
    forall p | 0 <= p < NPROC && Asleep(u.procs[p]) ensures HasKids(u, p) && !OrphanZombie(u, p, 0) {
      assert HasKids(t, p) && !OrphanZombie(t, p, 0);
      var c :| 0 <= c < NPROC && t.procs[c].parent == p;
      assert u.procs[c].parent == p;
    }
  }

  lemma {:induction false} PidsKept(s: Sys, r: Sys)
    requires Shaped(s.t) && Shaped(r.t) && Pids(s) && r.reaped == s.reaped && r.t.nextpid == s.t.nextpid
    requires forall p :: 0 <= p < NPROC && r.t.procs[p].state != UNUSED ==>
               s.t.procs[p].state != UNUSED && r.t.procs[p].pid == s.t.procs[p].pid
    ensures Pids(r)
  {
  }

  ghost predicate Life(s: Sys) {
    Forks(s) && Families(s.t) && Waiters(s.t) && Pids(s)
  }

  /** A step that only moves live processes between live states, putting none to sleep in wait. */
  ghost predicate Moves(t: Table, u: Table)
    requires Shaped(t) && Shaped(u)
  {
    && u.nextpid == t.nextpid
    && forall p :: 0 <= p < NPROC ==> MovesOne(t.procs[p], u.procs[p])
  }

  ghost predicate MovesOne(q: Proc, r: Proc) {
    && r.pid == q.pid && r.parent == q.parent
    && (if Alive(q) then Alive(r) else r.state == q.state)
    && (Asleep(r) ==> Asleep(q) && r.chan == q.chan)
  }

  lemma {:induction false} MovesLife(s: Sys, r: Sys)
    requires Life(s)
    requires Shaped(r.t) && Moves(s.t, r.t) && r.doing == s.doing && r.reaped == s.reaped
    ensures Life(r)
  {
    hide Forks, Families, Waiters, Pids;
    assert Shaped(s.t) by { LifeShaped(s); }
    assert forall p :: 0 <= p < NPROC ==> MovesOne(s.t.procs[p], r.t.procs[p]);
    LifeShaped(s);
    ForksKept(s, r);
    FamiliesKept(s.t, r.t);
    WaitersKept(s.t, r.t);
    PidsKept(s, r);
  }

  lemma {:induction false} LifeShaped(s: Sys)
    requires Forks(s)
    ensures Shaped(s.t) && |s.doing| == NPROC
  {
  }

  ghost predicate IsMove(a: Step) {
    a.SleepStep? || a.WakeStep? || a.KillStep? || a.ChargeStep? || a.DispatchStep? || a.ClockStep? || a.BoostStep?
  }

  lemma {:induction false} MovesStep(s: Sys, a: Step)
    requires Enabled(s, a) && IsMove(a)
    ensures Shaped(Do(s, a).t) && Moves(s.t, Do(s, a).t)
    ensures Do(s, a).doing == s.doing && Do(s, a).reaped == s.reaped
  {
    match a
    case WakeStep(id) => WakeMoves(s.t, OnOther(id));
    case ClockStep => WakeMoves(s.t, TICKS);
    case DispatchStep => DispatchMoves(s.t);
    case KillStep(pid) => KillMoves(s.t, pid);
    case _ => hide Queued;
  }

  lemma {:induction false} WakeMoves(t: Table, chan: Chan)
    requires Shaped(t) && Queued(t)
    ensures Moves(t, Wakeup(t, chan))
  {
    hide Queued;
    WakeEffect(t, chan, 0);
  }

  lemma {:induction false} DispatchMoves(t: Table)
    requires Shaped(t) && Queued(t) && FirstBusy(t.queues) < NPRIO
    ensures Moves(t, Dispatch(t))
  {
  }

  lemma {:induction false} KillMoves(t: Table, pid: nat)
    requires Shaped(t)
    ensures Moves(t, Kill(t, pid))
  {
    hide Find;
  }

  lemma {:induction false} AllocForks(s: Sys, p: int)
    requires Forks(s) && IsSlot(p) && Alive(s.t.procs[p]) && FreeSlot(s.t) < NPROC
    ensures Forks(s.(t := Alloc(s.t), doing := s.doing[p := Forking(FreeSlot(s.t))]))
  {
  }

  lemma {:induction false} AllocPids(s: Sys, r: Sys)
    requires Shaped(s.t) && Pids(s) && FreeSlot(s.t) < NPROC
    requires r.t == Alloc(s.t) && r.reaped == s.reaped
    ensures Pids(r)
  {
  }

  lemma {:induction false} ForkStartLife(s: Sys, p: int)
    requires Enabled(s, ForkStart(p)) && Life(s)
    ensures Life(Do(s, ForkStart(p)))
  {
    hide Queued, Families, Waiters, Pids, Forks;
    if FreeSlot(s.t) < NPROC {
      AllocForks(s, p);
      AllocPids(s, Do(s, ForkStart(p)));
      FamiliesKept(s.t, Alloc(s.t));
      WaitersKept(s.t, Alloc(s.t));
    }
  }

  lemma {:induction false} ForkFailLife(s: Sys, p: int)
    requires Enabled(s, ForkFail(p)) && Life(s)
    ensures Life(Do(s, ForkFail(p)))
  {
    hide Queued, Families, Waiters, Pids;
    var r := Do(s, ForkFail(p));
    FamiliesKept(s.t, r.t);
    WaitersKept(s.t, r.t);
    PidsKept(s, r);
  }

  lemma {:induction false} ForkDoneForks(s: Sys, p: int)
    requires Enabled(s, ForkDone(p)) && Forks(s)
    ensures Forks(Do(s, ForkDone(p)))
  {
    hide Queued;
  }

  lemma {:induction false} PublishFamilies(t: Table, p: int, np: int)
    requires Shaped(t) && Families(t) && IsSlot(p) && IsSlot(np)
    requires Alive(t.procs[p]) && t.procs[np].state == EMBRYO
    ensures Families(Publish(t, p, np))
  {
  }

  lemma {:induction false} EmbryoOf(s: Sys, p: int)
    requires Forks(s) && IsSlot(p) && s.doing[p].Forking?
    ensures IsSlot(s.doing[p].child) && s.t.procs[s.doing[p].child].state == EMBRYO
  {
  }

  lemma {:induction false} EmbryosOrphaned(t: Table, np: int)
    requires Shaped(t) && Families(t) && IsSlot(np) && t.procs[np].state == EMBRYO
    ensures t.procs[np].parent == NULL
  {
  }

  lemma {:induction false} ForkDoneLife(s: Sys, p: int)
    requires Enabled(s, ForkDone(p)) && Life(s)
    ensures Life(Do(s, ForkDone(p)))
  {
    hide Queued, Families, Waiters, Pids, Forks;
    var r, np := Do(s, ForkDone(p)), s.doing[p].child;
    ForkDoneForks(s, p);
    EmbryoOf(s, p);
    PublishFamilies(s.t, p, np);
    EmbryosOrphaned(s.t, np);
    WaitersKept(s.t, r.t);
    PidsKept(s, r);
  }

  /** The table after exit, process by process. */
  ghost predicate ExitShape(t: Table, p: int, u: Table)
    requires Shaped(t) && Shaped(u) && IsSlot(p)
  {
    forall q :: 0 <= q < NPROC ==>
      u.procs[q] == t.procs[q].(
        parent := if t.procs[q].parent == p then INIT else t.procs[q].parent,
        state := if q == p then ZOMBIE else if WokenByExit(t, p, q) then RUNNABLE else t.procs[q].state)
  }

  lemma {:induction false} ExitFamilies(t: Table, p: int, u: Table)
    requires Shaped(t) && Shaped(u) && IsSlot(p) && p != INIT && t.procs[p].state == RUNNING
    requires Families(t) && ExitShape(t, p, u)
    ensures Families(u)
  {
  }

  lemma {:induction false} ExitWaiters(t: Table, p: int, u: Table)
    requires Shaped(t) && Shaped(u) && IsSlot(p) && t.procs[p].state == RUNNING
    requires Waiters(t) && ExitShape(t, p, u) && t.procs[p].parent != p
    ensures Waiters(u)
  {
    forall q, c | 0 <= q < NPROC && 0 <= c < NPROC
      ensures !(Asleep(u.procs[q]) && u.procs[c].parent == q && u.procs[c].state == ZOMBIE)
    {
      ExitWakes(t, p, u, q, c);
    }
    WaitersKept(t, u);
  }

  /** Nobody sleeps on in wait with a zombie child: exit wakes its parent, and init if it inherits one. */
  lemma {:induction false} ExitWakes(t: Table, p: int, u: Table, q: int, c: int)
    requires Shaped(t) && Shaped(u) && IsSlot(p) && t.procs[p].state == RUNNING && IsSlot(q) && IsSlot(c)
    requires Waiters(t) && ExitShape(t, p, u) && t.procs[p].parent != p
    ensures !(Asleep(u.procs[q]) && u.procs[c].parent == q && u.procs[c].state == ZOMBIE)
  {
    assert Asleep(u.procs[q]) ==> Asleep(t.procs[q]) && t.procs[q].chan == OnProc(q) && !WokenByExit(t, p, q);
    assert t.procs[c].parent == p && t.procs[c].state == ZOMBIE ==> OrphanZombie(t, p, 0);
    assert t.procs[c].parent == q && t.procs[c].state == ZOMBIE ==> OrphanZombie(t, q, 0);
  }

  lemma {:induction false} ExitLife(s: Sys, p: int)
    requires Enabled(s, ExitStep(p)) && Life(s) && Families(s.t)
    ensures Life(Do(s, ExitStep(p)))
  {
    hide Queued, Exit, Families, Waiters, Pids, Forks;
    var r := Do(s, ExitStep(p));
    ExitEffect(s.t, p);
    NotOwnParent(s.t, p);
    assert ExitShape(s.t, p, r.t);
    ExitFamilies(s.t, p, r.t);
    ExitWaiters(s.t, p, r.t);
    ForksKept(s, r);
    PidsKept(s, r);
  }

  lemma {:induction false} NotOwnParent(t: Table, p: int)
    requires Shaped(t) && Families(t) && IsSlot(p)
    ensures t.procs[p].parent != p
  {
  }

  lemma {:induction false} ReapFamilies(t: Table, c: int)
    requires Shaped(t) && Families(t) && IsSlot(c) && t.procs[c].state == ZOMBIE
    ensures Families(Reap(t, c))
  {
  }

  lemma {:induction false} ReapPids(s: Sys, c: int)
    requires Shaped(s.t) && Pids(s) && IsSlot(c) && s.t.procs[c].state != UNUSED
    ensures Pids(s.(t := Reap(s.t, c), reaped := s.reaped + [s.t.procs[c].pid]))
  {
  }

  lemma {:induction false} ReapLife(s: Sys, p: int, c: int)
    requires Life(s) && IsSlot(p) && s.t.procs[p].state == RUNNING
    requires IsSlot(c) && s.t.procs[c].state == ZOMBIE && s.t.procs[c].parent == p
    ensures Life(s.(t := Reap(s.t, c), reaped := s.reaped + [s.t.procs[c].pid]))
  {
    hide Families, Waiters, Pids, Forks;
    LifeShaped(s);
    var r := s.(t := Reap(s.t, c), reaped := s.reaped + [s.t.procs[c].pid]);
    ForksKept(s, r);
    ReapFamilies(s.t, c);
    ReapPids(s, c);
    WaitersKept(s.t, r.t);
  }

  lemma {:induction false} SleptLife(s: Sys, p: int)
    requires Life(s) && IsSlot(p) && s.t.procs[p].state == RUNNING
    requires ZombieChild(s.t, p) == NPROC && HasKids(s.t, p)
    ensures Life(s.(t := Sleep(s.t, p, OnProc(p))))
  {
    hide Families, Waiters, Pids, Forks, ZombieChild;
    LifeShaped(s);
    var r := s.(t := Sleep(s.t, p, OnProc(p)));
    ForksKept(s, r);
    FamiliesKept(s.t, r.t);
    SleptWaiters(s.t, p);
    PidsKept(s, r);
  }

  lemma {:induction false} WaitLife(s: Sys, p: int)
    requires Enabled(s, WaitStep(p)) && Life(s)
    ensures Life(Do(s, WaitStep(p)))
  {
    hide Queued, Life, HasKids;
    match WaitOutcome(s.t, p)
    case Reaped(_) => ReapLife(s, p, ZombieChild(s.t, p));
    case NoChildren =>
    case Slept => SleptLife(s, p);
  }

  lemma {:induction false} NoZombieChild(t: Table, p: int)
    requires Shaped(t) && ZombieChild(t, p) == NPROC
    ensures !OrphanZombie(t, p, 0)
  {
  }

  lemma {:induction false} SleptWaiters(t: Table, p: int)
    requires Shaped(t) && IsSlot(p) && Waiters(t)
    requires ZombieChild(t, p) == NPROC && HasKids(t, p)
    ensures Waiters(Sleep(t, p, OnProc(p)))
  {
    hide ZombieChild;
    NoZombieChild(t, p);
    var u := Sleep(t, p, OnProc(p));
    forall q | 0 <= q < NPROC && Asleep(u.procs[q]) ensures HasKids(u, q) && !OrphanZombie(u, q, 0) {
      assert HasKids(t, q) && !OrphanZombie(t, q, 0);
      var c :| 0 <= c < NPROC && t.procs[c].parent == q;
      assert u.procs[c].parent == q;
    }
  }

  lemma {:induction false} DispatchTicks(t: Table)
    requires Shaped(t) && Queued(t) && FirstBusy(t.queues) < NPRIO
    ensures forall p :: 0 <= p < NPROC ==> Dispatch(t).procs[p].ticks == t.procs[p].ticks
  {
  }

  lemma {:induction false} Quantum(n: nat)
    requires n < NPRIO
    ensures Pow2(n) <= Pow2(NPRIO - 1) == 4
  {
    assert Pow2(0) == 1 && Pow2(1) == 2 && Pow2(2) == 4;
  }

  lemma {:induction false} QuantaStep(s: Sys, a: Step)
    requires Enabled(s, a) && Forks(s) && Quanta(s.t)
    ensures Shaped(Do(s, a).t) && Quanta(Do(s, a).t)
  {
    hide Queued, Pow2, Forks;
    Quantum(0);
    match a
    case ChargeStep(p) => Quantum(s.t.procs[p].priority);
    case DispatchStep => DispatchTicks(s.t);
    case _ => QuietStep(s, a);
  }

  lemma {:induction false} StepInv(s: Sys, a: Step)
    requires Inv(s) && Enabled(s, a)
    ensures Inv(Do(s, a))
  {
    hide Queued, Forks, Families, Waiters, Pids, Quanta, Do, Enabled;
    QueueStep(s, a);
    QuantaStep(s, a);
    match a
    case ForkStart(p) => ForkStartLife(s, p);
    case ForkFail(p) => ForkFailLife(s, p);
    case ForkDone(p) => ForkDoneLife(s, p);
    case ExitStep(p) => ExitLife(s, p);
    case WaitStep(p) => WaitLife(s, p);
    case _ =>
      MovesStep(s, a);
      MovesLife(s, Do(s, a));
  }

  lemma {:induction false} InitialQueued()
    ensures Shaped(Initial()) && Queued(Initial())
  {
  }

  /** At boot every slot but that of init is unused. */
  lemma {:induction false} InitialProcs()
    ensures Shaped(Initial()) && Initial().nextpid == 2
    ensures Initial().procs[INIT] == Proc(RUNNABLE, 1, NULL, NoChan, false, 0, 0)
    ensures forall p :: 0 <= p < NPROC && p != INIT ==> Initial().procs[p] == Proc(UNUSED, 0, NULL, NoChan, false, 0, 0)
  {
  }

  lemma {:induction false} StartInv()
    ensures Inv(Start())
  {
    hide Queued, Pow2, Initial;
    InitialQueued();
    InitialProcs();
    Quantum(0);
  }

  lemma {:induction false} RunInv(s: Sys, run: seq<Step>)
    requires Inv(s) && CanRun(s, run)
    ensures Inv(After(s, run))
    decreases |run|
  {
    hide Inv, Enabled, Do;
    if run != [] {
      StepInv(s, run[0]);
      RunInv(Do(s, run[0]), run[1..]);
    }
  }

  /** In every reachable state: a process is RUNNABLE iff it stands in the queue of its priority,
      and it stands there once; a process asleep in wait has children and none is a zombie; init
      is alive and every other process past EMBRYO has a live parent; no pid was returned by
      wait twice; and nobody's ticks reach the longest quantum. */
  lemma {:induction false} ReachableStates(run: seq<Step>)
    requires CanRun(Start(), run)
    ensures Inv(After(Start(), run))
  {
    hide Inv, CanRun, After;
    StartInv();
    RunInv(Start(), run);
  }

  // ---- Quantum ----

  ghost function Charges(run: seq<Step>, p: int): nat {
    if run == [] then 0 else (if run[0] == ChargeStep(p) then 1 else 0) + Charges(run[1..], p)
  }

  /** Some step of the run makes p yield. */
  ghost predicate Yields(s: Sys, run: seq<Step>, p: int)
    requires CanRun(s, run) && IsSlot(p)
    decreases |run|
  {
    run != [] &&
    ((run[0] == ChargeStep(p) && MustYield(s.t.procs[p])) || Yields(Do(s, run[0]), run[1..], p))
  }

  /** Without a yield, the ticks of slot p count the charges one by one, whatever else happens. */
  lemma {:induction false} TicksCount(s: Sys, run: seq<Step>, p: int)
    requires Inv(s) && CanRun(s, run) && IsSlot(p) && Shaped(s.t) && !Yields(s, run, p)
    ensures Shaped(After(s, run).t) && After(s, run).t.procs[p].ticks == s.t.procs[p].ticks + Charges(run, p)
    decreases |run|
  {
    hide Inv, Queued, Do, Enabled;
    if run != [] {
      StepInv(s, run[0]);
      TickStep(s, run[0], p);
      TicksCount(Do(s, run[0]), run[1..], p);
    }
  }

  lemma {:induction false} TickStep(s: Sys, a: Step, p: int)
    requires Inv(s) && Enabled(s, a) && IsSlot(p) && !(a == ChargeStep(p) && MustYield(s.t.procs[p]))
    ensures Shaped(Do(s, a).t)
    ensures Do(s, a).t.procs[p].ticks == s.t.procs[p].ticks + if a == ChargeStep(p) then 1 else 0
  {
    hide Queued, Forks, Families, Waiters, Pids, Quanta;
    match a
    case ChargeStep(q) =>
    case DispatchStep => DispatchTicks(s.t);
    case _ => QuietStep(s, a);
  }

  /** A slot that is charged 2^(NPRIO-1) ticks yields within them, in spite of sleeping, boosts,
      and being reused for another process. */
  lemma {:induction false} MustYieldWithinQuantum(s: Sys, run: seq<Step>, p: int)
    requires Inv(s) && CanRun(s, run) && IsSlot(p)
    requires Charges(run, p) >= Pow2(NPRIO - 1)
    ensures Yields(s, run, p)
  {
    if !Yields(s, run, p) {
      TicksCount(s, run, p);
      RunInv(s, run);
    }
  }
}
