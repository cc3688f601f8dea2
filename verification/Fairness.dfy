/** No starvation in the multi-level feedback queue: boosts come at least every BOOSTTIMER
    ticks, and after a boost every process that was runnable gets the CPU within as many
    dispatches as there were runnable processes. */
module Fairness {
  import opened Common
  import opened ProcTable
  import opened ProcRuns

  ghost function Dispatches(run: seq<Step>): nat {
    if run == [] then 0 else (if run[0].DispatchStep? then 1 else 0) + Dispatches(run[1..])
  }

  ghost function Clocks(run: seq<Step>): nat {
    if run == [] then 0 else (if run[0].ClockStep? then 1 else 0) + Clocks(run[1..])
  }

  /** The process the scheduler picks in s. */
  ghost function Picked(s: Sys): int
    requires Enabled(s, DispatchStep)
  {
    s.t.queues[FirstBusy(s.t.queues)][0]
  }

  /** Some step of the run dispatches p. */
  ghost predicate GetsCpu(s: Sys, run: seq<Step>, p: int)
    requires CanRun(s, run)
    decreases |run|
  {
    run != [] &&
    ((run[0].DispatchStep? && Picked(s) == p) || GetsCpu(Do(s, run[0]), run[1..], p))
  }

  /** p stands at position k of the highest-priority queue. */
  ghost predicate AtPlace(s: Sys, p: int, k: nat) {
    Shaped(s.t) && k < |s.t.queues[0]| && s.t.queues[0][k] == p
  }

  /** One step: p is picked, or moves up by one on a dispatch, or keeps its place. */
  lemma {:induction false} PlaceStep(s: Sys, a: Step, p: int, k: nat)
    requires Inv(s) && Enabled(s, a) && AtPlace(s, p, k)
    ensures a.DispatchStep? && k == 0 ==> Picked(s) == p
    ensures a.DispatchStep? && k > 0 ==> AtPlace(Do(s, a), p, k - 1)
    ensures !a.DispatchStep? ==> AtPlace(Do(s, a), p, k)
  {
    hide Life, Quanta, Queued;
    if a.DispatchStep? {
      assert FirstBusy(s.t.queues) == 0;
      DispatchQueued(s.t);
    } else {
      assert Forks(s) by { LifeForks(s); }
      QueueStep(s, a);
    }
  }

  lemma {:induction false} LifeForks(s: Sys)
    requires Life(s)
    ensures Forks(s)
  {
  }

  /** Whatever else happens, position k is served by the (k+1)-th dispatch. */
  lemma {:induction false} ServedInOrder(s: Sys, run: seq<Step>, p: int, k: nat)
    requires Inv(s) && CanRun(s, run) && AtPlace(s, p, k) && Dispatches(run) > k
    ensures GetsCpu(s, run, p)
    decreases |run|
  {
    hide Inv, Enabled, Do, AtPlace, Picked;
    var a := run[0];
    StepInv(s, a);
    PlaceStep(s, a, p, k);
    if !(a.DispatchStep? && k == 0) {
      ServedInOrder(Do(s, a), run[1..], p, if a.DispatchStep? then k - 1 else k);
    }
  }

  ghost function RunnableSet(t: Table): set<int>
    requires Shaped(t)
  {
    set p | 0 <= p < NPROC && t.procs[p].state == RUNNABLE
  }

  lemma {:induction false} DistinctCount(q: seq<int>)
    requires Distinct(q)
    ensures |set x | x in q| == |q|
  {
    if q == [] {
      assert (set x | x in q) == {};
    } else {
      var k := |q| - 1;
      DistinctCount(q[..k]);
      assert (set x | x in q) == (set x | x in q[..k]) + {q[k]};
    }
  }

  ghost function Slots(n: nat): (r: set<int>)
    ensures |r| == n && forall p :: p in r <==> 0 <= p < n
  {
    if n == 0 then {} else Slots(n - 1) + {n - 1}
  }

  lemma {:induction false} AtMostNproc(t: Table)
    requires Shaped(t)
    ensures |RunnableSet(t)| <= NPROC
  {
    SubsetCard(RunnableSet(t), Slots(NPROC));
  }

  /** A boost puts every runnable process in one queue, whose length is their number. */
  lemma {:induction false} BoostGathers(t: Table, p: int) returns (k: nat)
    requires Shaped(t) && Queued(t) && IsSlot(p) && t.procs[p].state == RUNNABLE
    ensures k < |Boost(t).queues[0]| == |RunnableSet(t)|
    ensures Boost(t).queues[0][k] == p
  {
    hide Queued;
    FlattenFacts(t, NPRIO);
    FlattenPrefix(t.queues, NPRIO);
    var q := Flatten(t.queues);
    DistinctCount(q);
    assert RunnableSet(t) == set x | x in q;
    assert p in q;
    k :| 0 <= k < |q| && q[k] == p;
  }

  /** Bounded waiting.  A process runnable at a boost is dispatched within as many dispatches
      as there were runnable processes then, at most NPROC, whatever forks, wakeups, yields,
      sleeps, kills, exits or further boosts come in between. */
  lemma {:induction false} BoundedWaiting(s: Sys, run: seq<Step>, p: int)
    requires Inv(s) && Enabled(s, BoostStep) && CanRun(Do(s, BoostStep), run)
    requires IsSlot(p) && s.t.procs[p].state == RUNNABLE
    requires Dispatches(run) >= |RunnableSet(s.t)|
    ensures |RunnableSet(s.t)| <= NPROC
    ensures GetsCpu(Do(s, BoostStep), run, p)
  {
    hide CanRun, GetsCpu, Boost, Life, Queued, Quanta, RunnableSet;
    AtMostNproc(s.t);
    var k := BoostGathers(s.t, p);
    StepInv(s, BoostStep);
    ServedInOrder(Do(s, BoostStep), run, p, k);
  }

  /** Timer ticks that can still pass before the next boost. */
  ghost function TicksLeft(s: Sys): int {
    if s.boostDue then 0
    else if UINT - s.ticks < BOOSTTIMER - s.ticks % BOOSTTIMER then UINT - s.ticks
    else BOOSTTIMER - s.ticks % BOOSTTIMER
  }

  lemma {:induction false} ClockTick(s: Sys, a: Step)
    requires Enabled(s, a) && !a.BoostStep? && s.ticks < UINT
    ensures Do(s, a).ticks < UINT
    ensures TicksLeft(Do(s, a)) == TicksLeft(s) - if a.ClockStep? then 1 else 0
    ensures TicksLeft(s) >= if a.ClockStep? then 1 else 0
  {
    hide Queued, Shaped, Exit, Kill, Alloc, Abandon, Publish, Sleep, Wait, WaitOutcome, Wakeup, Charge, Dispatch;
  }

  /** Between two boosts there are at most BOOSTTIMER ticks, also when ticks wraps around. */
  lemma {:induction false} BoostsAreFrequent(s: Sys, run: seq<Step>)
    requires s.ticks < UINT && CanRun(s, run) && BoostStep !in run
    ensures Clocks(run) <= TicksLeft(s) <= BOOSTTIMER
    decreases |run|
  {
    hide Enabled, Do;
    if run != [] {
      assert run[0] in run;
      ClockTick(s, run[0]);
      BoostsAreFrequent(Do(s, run[0]), run[1..]);
    }
  }

  /** A runnable process stays runnable until it is dispatched. */
  lemma {:induction false} StaysRunnable(s: Sys, a: Step, p: int)
    requires Inv(s) && Enabled(s, a) && IsSlot(p) && s.t.procs[p].state == RUNNABLE
    requires !(a.DispatchStep? && Picked(s) == p)
    ensures Shaped(Do(s, a).t) && Do(s, a).t.procs[p].state == RUNNABLE
  {
    hide Quanta, Families, Waiters, Pids, Queued, Forks;
    match a
    case DispatchStep => DispatchKeeps(s.t, p);
    case ChargeStep(q) =>
    case _ => QuietStep(s, a);
  }

  lemma {:induction false} DispatchKeeps(t: Table, p: int)
    requires Shaped(t) && Queued(t) && FirstBusy(t.queues) < NPRIO && IsSlot(p)
    requires t.queues[FirstBusy(t.queues)][0] != p
    ensures Dispatch(t).procs[p] == t.procs[p]
  {
  }

  lemma {:induction false} SplitRun(s: Sys, a: seq<Step>, b: seq<Step>)
    requires CanRun(s, a + b)
    ensures CanRun(s, a) && CanRun(After(s, a), b)
    decreases |a|
  {
    hide Enabled, Do;
    if a == [] {
      assert a + b == b;
    } else {
      assert (a + b)[1..] == a[1..] + b;
      SplitRun(Do(s, a[0]), a[1..], b);
    }
  }

  lemma {:induction false} DispatchesConcat(a: seq<Step>, b: seq<Step>)
    ensures Dispatches(a + b) == Dispatches(a) + Dispatches(b)
    ensures Clocks(a + b) == Clocks(a) + Clocks(b)
  {
    if a == [] {
      assert a + b == b;
    } else {
      assert (a + b)[1..] == a[1..] + b;
      DispatchesConcat(a[1..], b);
    }
  }

  lemma {:induction false} ServedAfterBoost(s: Sys, a: seq<Step>, b: seq<Step>, p: int)
    requires Inv(s) && CanRun(s, a + b) && BoostStep in a && Dispatches(b) >= NPROC
    requires IsSlot(p) && Shaped(s.t) && s.t.procs[p].state == RUNNABLE
    ensures GetsCpu(s, a + b, p)
    decreases |a|
  {
    hide Inv, Enabled, Do, Picked, Shaped;
    var x, rest := a[0], a[1..];
    assert (a + b)[0] == x && (a + b)[1..] == rest + b;
    if x.DispatchStep? && Picked(s) == p {
    } else if x.BoostStep? {
      DispatchesConcat(rest, b);
      AtMostNproc(s.t);
      BoundedWaiting(s, rest + b, p);
    } else {
      StepInv(s, x);
      StaysRunnable(s, x, p);
      ServedAfterBoost(Do(s, x), rest, b, p);
    }
  }

  /** No starvation.  From any reachable state, a runnable process is dispatched before
      BOOSTTIMER + 1 further ticks followed by NPROC further dispatches are over. */
  lemma {:induction false} NoStarvation(s: Sys, a: seq<Step>, b: seq<Step>, p: int)
    requires Inv(s) && s.ticks < UINT && CanRun(s, a + b)
    requires Clocks(a) > BOOSTTIMER && Dispatches(b) >= NPROC
    requires IsSlot(p) && Shaped(s.t) && s.t.procs[p].state == RUNNABLE
    ensures GetsCpu(s, a + b, p)
  {
    hide Inv, CanRun, GetsCpu, Shaped;
    SplitRun(s, a, b);
    if BoostStep !in a {
      BoostsAreFrequent(s, a);
    }
    ServedAfterBoost(s, a, b, p);
  }
}
