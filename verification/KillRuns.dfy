/** Whom kill marks.  The killed flag belongs to a slot of the process table: kill sets it on the
    first slot with the pid, in use or not, and only wait clears it.  So a kill that finds an
    unused slot is passed on to the next process that gets the slot. */
module KillRuns {
  import opened ProcTable
  import opened ProcRuns

  /** Step a is a kill that finds slot p. */
  ghost predicate Hit(s: Sys, a: Step, p: int)
    requires Shaped(s.t)
  {
    a.KillStep? && PidSlot(s.t, a.pid) == p
  }

  /** Step a is a wait that reaps slot p. */
  ghost predicate Cleared(s: Sys, a: Step, p: int)
    requires Shaped(s.t)
  {
    a.WaitStep? && IsSlot(a.p) && WaitOutcome(s.t, a.p).Reaped? && ZombieChild(s.t, a.p) == p
  }

  /** Step a is the beginning of a fork that takes slot p. */
  ghost predicate Taken(s: Sys, a: Step, p: int)
    requires Shaped(s.t)
  {
    a.ForkStart? && FreeSlot(s.t) == p
  }

  /** Step a is the end of a failed fork that had taken slot p. */
  ghost predicate GivenUp(s: Sys, a: Step, p: int)
    requires |s.doing| == NPROC
  {
    a.ForkFail? && IsSlot(a.p) && s.doing[a.p] == Forking(p)
  }

  predicate SlotKept(q: Proc, r: Proc) {
    && r.killed == q.killed && r.pid == q.pid
    && (r.state == UNUSED <==> q.state == UNUSED) && (r.state == EMBRYO ==> q.state == EMBRYO)
  }

  /** Steps other than those of fork, wait and kill leave flag, pid and use of every slot alone. */
  lemma {:induction false} KeptStep(s: Sys, a: Step, p: int)
    requires Enabled(s, a) && IsSlot(p) && !a.ForkStart? && !a.ForkFail? && !a.ForkDone? && !a.WaitStep? && !a.KillStep?
    ensures Shaped(Do(s, a).t) && SlotKept(s.t.procs[p], Do(s, a).t.procs[p]) && Do(s, a).t.nextpid == s.t.nextpid
  {
    hide Queued, Exit, Wakeup;
    match a
    case ExitStep(e) => ExitEffect(s.t, e);
    case WakeStep(id) => WakeKept(s.t, OnOther(id), p);
    case ClockStep => WakeKept(s.t, TICKS, p);
    case DispatchStep => DispatchKept(s.t, p);
    case _ =>
  }

  lemma {:induction false} WakeKept(t: Table, chan: Chan, p: int)
    requires Shaped(t) && Queued(t) && IsSlot(p)
    ensures var u := Wakeup(t, chan); Shaped(u) && u.nextpid == t.nextpid && SlotKept(t.procs[p], u.procs[p])
  {
    hide Queued;
    WakeEffect(t, chan, 0);
  }

  lemma {:induction false} DispatchKept(t: Table, p: int)
    requires Queued(t) && FirstBusy(t.queues) < NPRIO && IsSlot(p)
    ensures SlotKept(t.procs[p], Dispatch(t).procs[p])
  {
  }

  /** What a step does to the flag, the pid and the use of slot p. */
  ghost predicate SlotMoves(s: Sys, a: Step, p: int, u: Table)
    requires Shaped(s.t) && |s.doing| == NPROC && IsSlot(p) && Shaped(u)
  {
    var q, r := s.t.procs[p], u.procs[p];
    && r.killed == (!Cleared(s, a, p) && (Hit(s, a, p) || q.killed))
    && r.pid == (if Cleared(s, a, p) then 0 else if Taken(s, a, p) then s.t.nextpid else q.pid)
    && (r.state == UNUSED <==> Cleared(s, a, p) || GivenUp(s, a, p) || (q.state == UNUSED && !Taken(s, a, p)))
    && (r.state == EMBRYO ==> q.state == EMBRYO || Taken(s, a, p))
    && (GivenUp(s, a, p) ==> q.state == EMBRYO)
    && u.nextpid == s.t.nextpid + if a.ForkStart? && FreeSlot(s.t) < NPROC then 1 else 0
  }

  lemma {:induction false} ForkSlots(s: Sys, a: Step, p: int)
    requires Forks(s) && Enabled(s, a) && IsSlot(p) && (a.ForkStart? || a.ForkFail? || a.ForkDone?)
    ensures Shaped(Do(s, a).t) && SlotMoves(s, a, p, Do(s, a).t)
  {
    hide Queued, Find, Forks;
    if !a.ForkStart? { EmbryoOf(s, a.p); }
  }

  lemma {:induction false} WaitSlots(s: Sys, w: int, p: int)
    requires Enabled(s, WaitStep(w)) && IsSlot(p)
    ensures Shaped(Do(s, WaitStep(w)).t) && SlotMoves(s, WaitStep(w), p, Do(s, WaitStep(w)).t)
  {
    hide Queued, Find, HasKids;
  }

  lemma {:induction false} KillSlots(s: Sys, pid: nat, p: int)
    requires Enabled(s, KillStep(pid)) && IsSlot(p)
    ensures Shaped(Do(s, KillStep(pid)).t) && SlotMoves(s, KillStep(pid), p, Do(s, KillStep(pid)).t)
  {
    hide Queued, PidSlot;
  }

  lemma {:induction false} SlotStep(s: Sys, a: Step, p: int)
    requires Forks(s) && Enabled(s, a) && IsSlot(p)
    ensures Shaped(Do(s, a).t) && SlotMoves(s, a, p, Do(s, a).t)
  {
    hide Queued, Do, Forks, FreeSlot;
    match a
    case ForkStart(_) => ForkSlots(s, a, p);
    case ForkFail(_) => ForkSlots(s, a, p);
    case ForkDone(_) => ForkSlots(s, a, p);
    case WaitStep(w) => WaitSlots(s, w, p);
    case KillStep(pid) => KillSlots(s, pid, p);
    case _ => KeptStep(s, a, p);
  }

  // ---- Over whole runs ----

  /** No process is, or has got as far as running, in the slot. */
  predicate Empty(q: Proc) { q.state == UNUSED || q.state == EMBRYO }

  /** The run does not reap slot p. */
  ghost predicate Spared(s: Sys, run: seq<Step>, p: int)
    requires CanRun(s, run)
    decreases |run|
  {
    run == [] || (!Cleared(s, run[0], p) && Spared(Do(s, run[0]), run[1..], p))
  }

  /** Some kill finds slot p when it is unused or inside a fork, and the slot is not reaped later. */
  ghost predicate HitWhileEmpty(s: Sys, run: seq<Step>, p: int)
    requires CanRun(s, run) && IsSlot(p)
    decreases |run|
  {
    run != [] &&
    var next := Do(s, run[0]);
    || (Hit(s, run[0], p) && Empty(s.t.procs[p]) && Spared(next, run[1..], p))
    || HitWhileEmpty(next, run[1..], p)
  }

  lemma {:induction false} StaysInUse(s: Sys, run: seq<Step>, p: int)
    requires Inv(s) && CanRun(s, run) && IsSlot(p) && Spared(s, run, p)
    ensures Shaped(After(s, run).t) && (Empty(After(s, run).t.procs[p]) ==> Empty(s.t.procs[p]))
    decreases |run|
  {
    hide Inv, Queued, Do, Enabled, Forks, Cleared, Hit;
    InvForks(s);
    if run != [] {
      StepInv(s, run[0]);
      SlotStep(s, run[0], p);
      StaysInUse(Do(s, run[0]), run[1..], p);
      assert GivenUp(s, run[0], p) || Taken(s, run[0], p) ==> Empty(s.t.procs[p]);
    }
  }

  lemma {:induction false} InvForks(s: Sys)
    requires Inv(s)
    ensures Forks(s) && Shaped(s.t) && |s.doing| == NPROC
  {
  }

  /** The flag of an empty slot tells of a kill that found it empty. */
  lemma {:induction false} FlagHistory(s: Sys, run: seq<Step>, p: int)
    requires Inv(s) && CanRun(s, run) && IsSlot(p) && Shaped(After(s, run).t) && Empty(After(s, run).t.procs[p])
    ensures Shaped(s.t)
    ensures After(s, run).t.procs[p].killed <==>
            HitWhileEmpty(s, run, p) || (s.t.procs[p].killed && Spared(s, run, p))
    decreases |run|
  {
    hide Inv, Queued, Do, Enabled, Forks, PidSlot, ZombieChild, WaitOutcome;
    InvForks(s);
    if run != [] {
      var next := Do(s, run[0]);
      StepInv(s, run[0]);
      SlotStep(s, run[0], p);
      FlagHistory(next, run[1..], p);
      if Spared(next, run[1..], p) { StaysInUse(next, run[1..], p); }
    }
  }

  /** A fork hands out a child that is killed from the start exactly when a kill found the slot
      empty since it was last reaped. */
  lemma {:induction false} BornKilled(run: seq<Step>, f: int)
    requires CanRun(Start(), run)
    requires Enabled(After(Start(), run), ForkStart(f)) && FreeSlot(After(Start(), run).t) < NPROC
    ensures var s := After(Start(), run);
            var c := FreeSlot(s.t);
            Do(s, ForkStart(f)).t.procs[c].killed <==> HitWhileEmpty(Start(), run, c)
  {
    hide CanRun, After, Queued, Initial, Inv, HitWhileEmpty;
    StartInv();
    InitialProcs();
    RunInv(Start(), run);
    FlagHistory(Start(), run, FreeSlot(After(Start(), run).t));
  }

  /** The pids of children whose fork failed. */
  ghost function Failed(s: Sys, run: seq<Step>): set<nat>
    requires CanRun(s, run)
    decreases |run|
  {
    if run == [] then {}
    else
      var a := run[0];
      (if a.ForkFail? then {s.t.procs[s.doing[a.p].child].pid} else {}) + Failed(Do(s, a), run[1..])
  }

  /** Unused slots hold pid 0 or one of those in gone, and nobody else does. */
  ghost predicate Leftovers(s: Sys, gone: set<nat>)
    requires Shaped(s.t)
  {
    && (forall p :: 0 <= p < NPROC ==>
          (s.t.procs[p].state == UNUSED <==> s.t.procs[p].pid == 0 || s.t.procs[p].pid in gone))
    && (forall pid :: pid in gone ==> pid < s.t.nextpid)
    && s.t.nextpid > 0
  }

  lemma {:induction false} LeftoversStep(s: Sys, a: Step, gone: set<nat>)
    requires Inv(s) && Enabled(s, a) && Leftovers(s, gone)
    ensures Shaped(Do(s, a).t)
    ensures Leftovers(Do(s, a), gone + if a.ForkFail? then {s.t.procs[s.doing[a.p].child].pid} else {})
  {
    hide Queued, Do, Forks, Families, Waiters, Quanta, FreeSlot, WaitOutcome, ZombieChild;
    var more := gone + if a.ForkFail? then {s.t.procs[s.doing[a.p].child].pid} else {};
    if a.ForkFail? { EmbryoOf(s, a.p); }
    SlotStep(s, a, 0);
    forall p | 0 <= p < NPROC
      ensures Do(s, a).t.procs[p].state == UNUSED <==> Do(s, a).t.procs[p].pid == 0 || Do(s, a).t.procs[p].pid in more
    {
      SlotStep(s, a, p);
      assert !a.KillStep? && !a.WaitStep? ==> !Cleared(s, a, p);
    }
  }

  lemma {:induction false} LeftoversRun(s: Sys, run: seq<Step>, gone: set<nat>)
    requires Inv(s) && CanRun(s, run) && Shaped(s.t) && Leftovers(s, gone)
    ensures Shaped(After(s, run).t) && Leftovers(After(s, run), gone + Failed(s, run))
    decreases |run|
  {
    hide Inv, Queued, Do, Leftovers;
    if run == [] {
      assert gone + {} == gone;
    } else {
      var a := run[0];
      var more := gone + if a.ForkFail? then {s.t.procs[s.doing[a.p].child].pid} else {};
      StepInv(s, a);
      LeftoversStep(s, a, gone);
      LeftoversRun(Do(s, a), run[1..], more);
      assert more + Failed(Do(s, a), run[1..]) == gone + Failed(s, run);
    }
  }

  /** kill marks a process, and not an unused slot, exactly when the pid is neither 0 nor that of a
      child whose fork failed. */
  lemma {:induction false} KillFinds(run: seq<Step>, pid: nat)
    requires CanRun(Start(), run)
    ensures var t := After(Start(), run).t;
            && Shaped(t)
            && (PidSlot(t, pid) < NPROC ==>
                 (t.procs[PidSlot(t, pid)].state == UNUSED <==> pid == 0 || pid in Failed(Start(), run)))
  {
    hide CanRun, After, Queued, Initial, Inv, PidSlot;
    StartInv();
    InitialProcs();
    LeftoversRun(Start(), run, {});
    assert {} + Failed(Start(), run) == Failed(Start(), run);
  }

  lemma {:induction false} FirstFree(t: Table)
    requires Shaped(t) && t.procs[0].state != UNUSED && t.procs[1].state == UNUSED
    ensures FreeSlot(t) == 1
  {
  }

  /** For example, kill(0) right after boot marks the slot of the first child to come. */
  lemma {:induction false} KillZero()
    ensures var run := [KillStep(0), DispatchStep];
            && CanRun(Start(), run)
            && var s := After(Start(), run);
               Enabled(s, ForkStart(INIT)) && FreeSlot(s.t) == 1 && Do(s, ForkStart(INIT)).t.procs[1].killed
  {
    hide Queued, Find, PidSlot, FreeSlot;
    InitialQueued();
    InitialProcs();
    var s := Start();
    assert s.t.procs[1].pid == 0 && PidSlot(s.t, 0) == 1;
    KillQueued(s.t, 0);
    var t := Do(s, KillStep(0));
    assert t.t.queues[0] == [INIT] && FirstBusy(t.t.queues) == 0;
    DispatchQueued(t.t);
    var u := Do(t, DispatchStep);
    assert u.t.procs[0].state == RUNNING && u.t.procs[1].state == UNUSED && u.t.procs[1].killed;
    FirstFree(u.t);
    assert After(s, [KillStep(0), DispatchStep]) == u;
  }
}
