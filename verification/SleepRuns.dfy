/** sleep, wakeup and kill over whole runs: a process sleeps on the channel it named until that channel
    is woken or it is killed, and either makes it runnable. */
module SleepRuns {
  import opened ProcTable
  import opened ProcRuns
  import K = KillRuns

  predicate AsleepOn(q: Proc, id: nat) { q.state == SLEEPING && q.chan == OnOther(id) }

  /** The step wakes channel id: a wakeup on it, or a clock tick for the ticks channel. */
  predicate WakesChannel(a: Step, id: nat) { a == WakeStep(id) || (a == ClockStep && id == 0) }

  /** Slot p is the first with the pid. */
  predicate FirstWith(t: Table, pid: nat, p: int) {
    0 <= p < |t.procs| && t.procs[p].pid == pid && forall j :: 0 <= j < p ==> t.procs[j].pid != pid
  }

  /** sleep puts p to sleep on the channel and does nothing else. */
  lemma {:induction false} SleepLaw(s: Sys, p: int, id: nat)
    requires Enabled(s, SleepStep(p, id))
    ensures Do(s, SleepStep(p, id)).t ==
            s.t.(procs := s.t.procs[p := s.t.procs[p].(state := SLEEPING, chan := OnOther(id))])
  {
    hide Queued;
  }

  /** wakeup, and the tick for those asleep on ticks, make exactly the sleepers on the channel runnable. */
  lemma {:induction false} WakeLaw(s: Sys, a: Step, id: nat, p: int)
    requires Enabled(s, a) && WakesChannel(a, id) && IsSlot(p)
    ensures Shaped(Do(s, a).t)
    ensures Do(s, a).t.procs[p] ==
            if AsleepOn(s.t.procs[p], id) then s.t.procs[p].(state := RUNNABLE) else s.t.procs[p]
  {
    hide Queued, Wakeup;
    WakeChannel(s.t, OnOther(id), p);
  }

  lemma {:induction false} WakeChannel(t: Table, chan: Chan, p: int)
    requires Shaped(t) && Queued(t) && IsSlot(p)
    ensures Shaped(Wakeup(t, chan))
    ensures Wakeup(t, chan).procs[p] ==
            if t.procs[p].state == SLEEPING && t.procs[p].chan == chan then t.procs[p].(state := RUNNABLE)
            else t.procs[p]
  {
    hide Queued;
    WakeEffect(t, chan, 0);
  }

  /** The processes that a wakeup adds to a queue are in the order of their slots. */
  lemma {:induction false} WakeOrder(t: Table, chan: Chan, k: nat, i: nat, x: nat, y: nat)
    requires Shaped(t) && k <= NPROC && i < NPRIO
    requires var r := WakeFrom(t, chan, k); |t.queues[i]| <= x < y < |r.queues[i]|
    ensures var r := WakeFrom(t, chan, k); k <= r.queues[i][x] < r.queues[i][y]
    decreases NPROC - k
  {
    if t.procs[k].state == SLEEPING && t.procs[k].chan == chan {
      var u := Enqueue(t, k);
      if i == t.procs[k].priority && x == |t.queues[i]| {
        WakeKeeps(u, chan, k + 1, i, x);
        WakeAbove(u, chan, k + 1, i, y);
      } else {
        WakeOrder(u, chan, k + 1, i, x, y);
      }
    } else {
      WakeOrder(t, chan, k + 1, i, x, y);
    }
  }

  lemma {:induction false} WakeKeeps(t: Table, chan: Chan, k: nat, i: nat, x: nat)
    requires Shaped(t) && k <= NPROC && i < NPRIO && x < |t.queues[i]|
    ensures var q := WakeFrom(t, chan, k).queues[i]; x < |q| && q[x] == t.queues[i][x]
    decreases NPROC - k
  {
    if k < NPROC {
      var asleep := t.procs[k].state == SLEEPING && t.procs[k].chan == chan;
      WakeKeeps(if asleep then Enqueue(t, k) else t, chan, k + 1, i, x);
    }
  }

  lemma {:induction false} WakeAbove(t: Table, chan: Chan, k: nat, i: nat, y: nat)
    requires Shaped(t) && k <= NPROC && i < NPRIO
    requires |t.queues[i]| <= y < |WakeFrom(t, chan, k).queues[i]|
    ensures WakeFrom(t, chan, k).queues[i][y] >= k
    decreases NPROC - k
  {
    if t.procs[k].state == SLEEPING && t.procs[k].chan == chan {
      var u := Enqueue(t, k);
      if i == t.procs[k].priority && y == |t.queues[i]| {
        WakeKeeps(u, chan, k + 1, i, y);
      } else {
        WakeAbove(u, chan, k + 1, i, y);
      }
    } else {
      WakeAbove(t, chan, k + 1, i, y);
    }
  }

  /** kill marks the first slot with the pid, wakes it if it sleeps, and leaves all other slots alone. */
  lemma {:induction false} KillLaw(s: Sys, pid: nat, p: int)
    requires Enabled(s, KillStep(pid)) && IsSlot(p)
    ensures var q := s.t.procs[p];
            Do(s, KillStep(pid)).t.procs[p] ==
            if !FirstWith(s.t, pid, p) then q
            else q.(killed := true, state := if q.state == SLEEPING then RUNNABLE else q.state)
  {
    hide Queued, Find;
    KillSlot(s.t, pid, p);
  }

  lemma {:induction false} KillSlot(t: Table, pid: nat, p: int)
    requires Shaped(t) && IsSlot(p)
    ensures FirstWith(t, pid, p) <==> PidSlot(t, pid) == p
  {
    hide PidSlot;
    assert t.procs[p].pid == pid ==> PidSlot(t, pid) <= p;
  }

  /** Step a is a kill that marks slot p. */
  predicate KillsSlot(s: Sys, a: Step, p: int) { a.KillStep? && FirstWith(s.t, a.pid, p) }

  /** Nothing in the run wakes channel id or kills the process in slot p. */
  ghost predicate Quiet(s: Sys, run: seq<Step>, p: int, id: nat)
    requires CanRun(s, run)
    decreases |run|
  {
    run == [] ||
    (!WakesChannel(run[0], id) && !KillsSlot(s, run[0], p) && Quiet(Do(s, run[0]), run[1..], p, id))
  }

  lemma {:induction false} AsleepStep(s: Sys, a: Step, p: int, id: nat)
    requires Inv(s) && Enabled(s, a) && IsSlot(p) && AsleepOn(s.t.procs[p], id)
    ensures Shaped(Do(s, a).t)
    ensures AsleepOn(Do(s, a).t.procs[p], id) <==> !WakesChannel(a, id) && !KillsSlot(s, a, p)
    ensures WakesChannel(a, id) || KillsSlot(s, a, p) ==> Do(s, a).t.procs[p].state == RUNNABLE
  {
    hide Queued, Exit, Wakeup, Dispatch, Wait, Kill, Charge, Families, Waiters, Pids, Quanta, Forks, Find;
    K.InvForks(s);
    match a
    case ForkFail(f) => EmbryoOf(s, f);
    case ForkDone(f) => EmbryoOf(s, f);
    case ExitStep(e) => ExitEffect(s.t, e);
    case WakeStep(i) => WakeChannel(s.t, OnOther(i), p);
    case ClockStep => WakeChannel(s.t, TICKS, p);
    case DispatchStep => DispatchOthers(s.t, p);
    case WaitStep(w) => WaitOthers(s.t, w, p);
    case KillStep(pid) => KillLaw(s, pid, p);
    case ChargeStep(q) => ChargeOthers(s.t, q, p);
    case _ =>
  }

  lemma {:induction false} DispatchOthers(t: Table, p: int)
    requires Queued(t) && FirstBusy(t.queues) < NPRIO && IsSlot(p) && t.procs[p].state != RUNNABLE
    ensures Dispatch(t).procs[p] == t.procs[p]
  {
  }

  lemma {:induction false} WaitOthers(t: Table, w: int, p: int)
    requires Shaped(t) && IsSlot(w) && IsSlot(p) && t.procs[p].state == SLEEPING && t.procs[w].state == RUNNING
    ensures Wait(t, w).procs[p] == t.procs[p]
  {
    hide HasKids;
  }

  lemma {:induction false} ChargeOthers(t: Table, q: int, p: int)
    requires Shaped(t) && IsSlot(q) && IsSlot(p) && q != p
    ensures Charge(t, q).procs[p] == t.procs[p]
  {
    hide MustYield;
  }

  /** A process asleep on a channel stays asleep on it until the channel is woken or it is killed. */
  lemma {:induction false} SleepsOn(s: Sys, run: seq<Step>, p: int, id: nat)
    requires Inv(s) && CanRun(s, run) && IsSlot(p) && Shaped(s.t) && AsleepOn(s.t.procs[p], id)
    ensures Quiet(s, run, p, id) ==> Shaped(After(s, run).t) && AsleepOn(After(s, run).t.procs[p], id)
    decreases |run|
  {
    hide Inv, Queued, Do, Enabled;
    if run != [] && Quiet(s, run, p, id) {
      StepInv(s, run[0]);
      AsleepStep(s, run[0], p, id);
      SleepsOn(Do(s, run[0]), run[1..], p, id);
    }
  }

  /** And the step that ends the quiet makes it runnable. */
  lemma {:induction false} WokenAfter(s: Sys, run: seq<Step>, a: Step, p: int, id: nat)
    requires Inv(s) && CanRun(s, run) && IsSlot(p) && Shaped(s.t) && AsleepOn(s.t.procs[p], id)
    requires Quiet(s, run, p, id) && Enabled(After(s, run), a)
    requires WakesChannel(a, id) || KillsSlot(After(s, run), a, p)
    ensures Shaped(Do(After(s, run), a).t) && Do(After(s, run), a).t.procs[p].state == RUNNABLE
  {
    hide Inv, Queued, Do, Enabled;
    SleepsOn(s, run, p, id);
    RunInv(s, run);
    AsleepStep(After(s, run), a, p, id);
  }
}
