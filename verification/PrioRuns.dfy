/** Priorities over whole runs: the levels of the feedback queue, the quantum of each level, and who is
    dispatched. */
module PrioRuns {
  import opened Common
  import opened ProcTable
  import opened ProcRuns
  import K = KillRuns

  /** The timer tick of step a takes the CPU from the process in slot p. */
  ghost predicate Preempted(s: Sys, a: Step, p: int)
    requires Enabled(s, a) && IsSlot(p)
  {
    a == ChargeStep(p) && Shaped(Do(s, a).t) && Do(s, a).t.procs[p].state == RUNNABLE
  }

  /** Step a starts a new process in slot p. */
  ghost predicate Started(s: Sys, a: Step, p: int)
    requires Enabled(s, a) && IsSlot(p)
  {
    Shaped(Do(s, a).t) && s.t.procs[p].state == UNUSED && Do(s, a).t.procs[p].state == EMBRYO
  }

  /** The quantum of each level, in ticks. */
  function QuantumOf(level: nat): nat { if level == 0 then 1 else if level == 1 then 2 else 4 }

  lemma {:induction false} Powers(level: nat)
    requires level < NPRIO
    ensures Pow2(level) == QuantumOf(level)
  {
    assert Pow2(0) == 1 && Pow2(1) == 2 && Pow2(2) == 4;
  }

  /** A tick takes the CPU from a process exactly when it completes the quantum of its level: 1, 2 or 4
      ticks since it last gave way. */
  lemma {:induction false} TickQuantum(s: Sys, p: int)
    requires Enabled(s, ChargeStep(p))
    ensures Preempted(s, ChargeStep(p), p) <==> s.t.procs[p].ticks + 1 >= QuantumOf(s.t.procs[p].priority)
    ensures var q := Do(s, ChargeStep(p)).t.procs[p];
            if Preempted(s, ChargeStep(p), p) then q.ticks == 0
            else q.ticks == s.t.procs[p].ticks + 1 && q.state == RUNNING
  {
    hide Queued, Pow2;
    Powers(s.t.procs[p].priority);
  }

  lemma {:induction false} LevelKept(s: Sys, a: Step, p: int)
    requires Forks(s) && Enabled(s, a) && IsSlot(p) && !a.ForkStart? && !a.BoostStep? && a != ChargeStep(p)
    ensures Shaped(Do(s, a).t) && Do(s, a).t.procs[p].priority == s.t.procs[p].priority
  {
    hide Queued, Forks, Exit, Wakeup, Dispatch, Wait, Kill, Charge;
    match a
    case ExitStep(e) => ExitEffect(s.t, e);
    case WakeStep(id) => WakeLevel(s.t, OnOther(id), p);
    case ClockStep => WakeLevel(s.t, TICKS, p);
    case DispatchStep => DispatchLevel(s.t, p);
    case WaitStep(w) => WaitLevel(s.t, w, p);
    case KillStep(pid) => KillLevel(s.t, pid, p);
    case ChargeStep(q) => ChargeLevel(s.t, q, p);
    case _ =>
  }

  lemma {:induction false} WakeLevel(t: Table, chan: Chan, p: int)
    requires Shaped(t) && Queued(t) && IsSlot(p)
    ensures Shaped(Wakeup(t, chan)) && Wakeup(t, chan).procs[p].priority == t.procs[p].priority
  {
    hide Queued;
    WakeEffect(t, chan, 0);
  }

  lemma {:induction false} WaitLevel(t: Table, w: int, p: int)
    requires Shaped(t) && IsSlot(w) && IsSlot(p)
    ensures Wait(t, w).procs[p].priority == t.procs[p].priority
  {
    hide Find, HasKids;
  }

  lemma {:induction false} KillLevel(t: Table, pid: nat, p: int)
    requires Shaped(t) && IsSlot(p)
    ensures Kill(t, pid).procs[p].priority == t.procs[p].priority
  {
    hide PidSlot;
  }

  lemma {:induction false} ChargeLevel(t: Table, q: int, p: int)
    requires Shaped(t) && IsSlot(q) && IsSlot(p) && q != p
    ensures Charge(t, q).procs[p].priority == t.procs[p].priority
  {
    hide MustYield;
  }

  lemma {:induction false} DispatchLevel(t: Table, p: int)
    requires Queued(t) && FirstBusy(t.queues) < NPRIO && IsSlot(p)
    ensures Dispatch(t).procs[p].priority == t.procs[p].priority
  {
  }

  lemma {:induction false} LevelMoves(s: Sys, a: Step, p: int)
    requires Enabled(s, a) && IsSlot(p) && (a.ForkStart? || a.BoostStep? || a == ChargeStep(p))
    ensures Shaped(Do(s, a).t)
    ensures Do(s, a).t.procs[p].priority ==
            if a == BoostStep || K.Taken(s, a, p) then 0
            else if Preempted(s, a, p) then Min(NPRIO - 1, s.t.procs[p].priority + 1)
            else s.t.procs[p].priority
  {
    hide Queued, Find, MustYield;
  }

  /** A new process starts where fork takes an unused slot. */
  lemma {:induction false} StartedByFork(s: Sys, a: Step, p: int)
    requires Forks(s) && Enabled(s, a) && IsSlot(p)
    ensures Started(s, a, p) <==> K.Taken(s, a, p)
  {
    hide Queued, Forks, Do, FreeSlot, WaitOutcome, ZombieChild, PidSlot;
    K.SlotStep(s, a, p);
    if K.Taken(s, a, p) { TakesUnused(s, a, p); }
  }

  lemma {:induction false} TakesUnused(s: Sys, a: Step, p: int)
    requires Enabled(s, a) && IsSlot(p) && K.Taken(s, a, p)
    ensures s.t.procs[p].state == UNUSED && Shaped(Do(s, a).t) && Do(s, a).t.procs[p].state == EMBRYO
  {
    hide Queued;
  }

  /** A step changes the level of slot p only like this: a boost and a new process put it at the top,
      and losing the CPU to a tick moves it down by one, to the last at most. */
  lemma {:induction false} LevelStep(s: Sys, a: Step, p: int)
    requires Forks(s) && Enabled(s, a) && IsSlot(p)
    ensures Shaped(Do(s, a).t)
    ensures Do(s, a).t.procs[p].priority ==
            if a == BoostStep || Started(s, a, p) then 0
            else if Preempted(s, a, p) then Min(NPRIO - 1, s.t.procs[p].priority + 1)
            else s.t.procs[p].priority
  {
    hide Queued, Forks, Do, FreeSlot, Started;
    StartedByFork(s, a, p);
    if a.ForkStart? || a.BoostStep? || a == ChargeStep(p) { LevelMoves(s, a, p); } else { LevelKept(s, a, p); }
  }

  // ---- Over runs ----

  /** The times that slot p loses the CPU to a tick. */
  ghost function Preemptions(s: Sys, run: seq<Step>, p: int): nat
    requires CanRun(s, run) && IsSlot(p)
    decreases |run|
  {
    if run == [] then 0
    else (if Preempted(s, run[0], p) then 1 else 0) + Preemptions(Do(s, run[0]), run[1..], p)
  }

  /** The run neither boosts nor starts a new process in slot p. */
  ghost predicate Undisturbed(s: Sys, run: seq<Step>, p: int)
    requires CanRun(s, run) && IsSlot(p)
    decreases |run|
  {
    run == [] ||
    (run[0] != BoostStep && !Started(s, run[0], p) && Undisturbed(Do(s, run[0]), run[1..], p))
  }

  /** Demotion.  Between boosts, the level of a process is where it started plus one for every time it
      used up its quantum, down to the last. */
  lemma {:induction false} Demotion(s: Sys, run: seq<Step>, p: int)
    requires Inv(s) && CanRun(s, run) && IsSlot(p) && Undisturbed(s, run, p)
    ensures Shaped(s.t) && Shaped(After(s, run).t)
    ensures After(s, run).t.procs[p].priority == Min(NPRIO - 1, s.t.procs[p].priority + Preemptions(s, run, p))
    decreases |run|
  {
    hide Inv, Queued, Do, Enabled, Started, Preempted;
    K.InvForks(s);
    if run != [] {
      StepInv(s, run[0]);
      LevelStep(s, run[0], p);
      Demotion(Do(s, run[0]), run[1..], p);
    }
  }

  /** A boost puts every process at the top, in the order of the queues. */
  lemma {:induction false} BoostLevels(s: Sys)
    requires Enabled(s, BoostStep)
    ensures var u, q := Do(s, BoostStep).t, s.t.queues;
            && Shaped(u) && (forall p :: 0 <= p < NPROC ==> u.procs[p].priority == 0)
            && u.queues == [q[0] + q[1] + q[2], [], []]
  {
    hide Queued;
    var q := s.t.queues;
    assert q[..2] == [q[0], q[1]] && q[..2][..1] == [q[0]] && [q[0]][..0] == [];
    assert Flatten([q[0]]) == [] + q[0] == q[0];
    assert Flatten(q[..2]) == q[0] + q[1];
  }

  /** The process dispatched has the best level of all that are runnable, and is the first of its
      queue. */
  lemma {:induction false} BestFirst(s: Sys) returns (p: int)
    requires Enabled(s, DispatchStep)
    ensures var u := Do(s, DispatchStep).t;
            && IsSlot(p) && s.t.procs[p].state == RUNNABLE && Shaped(u) && u.procs[p].state == RUNNING
            && var i := s.t.procs[p].priority;
               && s.t.queues[i] == [p] + u.queues[i]
               && (forall j :: 0 <= j < NPRIO && j != i ==> u.queues[j] == s.t.queues[j])
               && forall q :: 0 <= q < NPROC && s.t.procs[q].state == RUNNABLE ==> s.t.procs[q].priority >= i
    ensures forall q :: 0 <= q < NPROC && q != p ==> Do(s, DispatchStep).t.procs[q] == s.t.procs[q]
  {
    var t := s.t;
    var i := FirstBusy(t.queues);
    p := t.queues[i][0];
    forall q | 0 <= q < NPROC && t.procs[q].state == RUNNABLE ensures t.procs[q].priority >= i {
      assert q in t.queues[t.procs[q].priority];
    }
  }
}
