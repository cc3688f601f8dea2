/** The process table of kernel/proc.c as a value: one function per critical section of
    ptable.lock.  The scheduling queues are sequences here; module PtableLists proves that the
    intrusive linked lists of the source compute exactly these functions. */
module ProcTable {
  import opened Common

  const NPROC: nat := 64
  const NPRIO: nat := 3
  const NULL: int := -1
  const INIT: nat := 0        // userinit's allocproc takes the first slot

  datatype PState = UNUSED | EMBRYO | SLEEPING | RUNNABLE | RUNNING | ZOMBIE

  /** What a process sleeps on: nothing, a process (only wait does that), or anything else. */
  datatype Chan = NoChan | OnProc(slot: int) | OnOther(id: nat)

  datatype Proc = Proc(state: PState, pid: nat, parent: int, chan: Chan, killed: bool,
                       priority: nat, ticks: nat)

  datatype Table = Table(procs: seq<Proc>, queues: seq<seq<int>>, nextpid: nat)

  predicate IsSlot(p: int) {
    0 <= p < NPROC
  }

  ghost predicate Shaped(t: Table) {
    && |t.procs| == NPROC && |t.queues| == NPRIO
    && forall p :: 0 <= p < NPROC ==> t.procs[p].priority < NPRIO
  }

  /** p->state = RUNNABLE at the end of the queue of its priority. */
  ghost function Enqueue(t: Table, p: int): (r: Table)
    requires Shaped(t) && IsSlot(p)
    ensures Shaped(r)
  {
    var i := t.procs[p].priority;
    t.(procs := t.procs[p := t.procs[p].(state := RUNNABLE)],
       queues := t.queues[i := t.queues[i] + [p]])
  }

  /** All queues in priority order, one after the other. */
  ghost function Flatten(qs: seq<seq<int>>): (r: seq<int>) {
    if qs == [] then [] else Flatten(qs[..|qs| - 1]) + qs[|qs| - 1]
  }

  /** The first non-empty queue, or NPRIO. */
  ghost function FirstBusy(qs: seq<seq<int>>): (r: nat)
    ensures r <= |qs|
    ensures r < |qs| ==> qs[r] != []
    ensures forall j :: 0 <= j < r ==> qs[j] == []
  {
    if qs == [] then 0
    else if qs[0] != [] then 0
    else 1 + FirstBusy(qs[1..])
  }

  ghost function Dispatch(t: Table): (r: Table)
    requires Queued(t) && FirstBusy(t.queues) < NPRIO
    ensures Shaped(r)
  {
    var i := FirstBusy(t.queues);
    var p := t.queues[i][0];
    t.(procs := t.procs[p := t.procs[p].(state := RUNNING, chan := NoChan)],
       queues := t.queues[i := t.queues[i][1..]])
  }

  ghost function Boost(t: Table): (r: Table)
    requires Shaped(t)
    ensures Shaped(r)
  {
    t.(procs := seq(NPROC, p requires 0 <= p < NPROC => t.procs[p].(priority := 0)),
       queues := [Flatten(t.queues)] + seq(NPRIO - 1, _ => []))
  }

  ghost function Yield(t: Table, p: int): (r: Table)
    requires Shaped(t) && IsSlot(p)
    ensures Shaped(r)
  {
    var q := t.procs[p];
    var prio := q.priority + if q.priority == NPRIO - 1 then 0 else 1;
    Enqueue(t.(procs := t.procs[p := q.(priority := prio, ticks := 0)]), p)
  }

  ghost function Sleep(t: Table, p: int, chan: Chan): (r: Table)
    requires Shaped(t) && IsSlot(p)
    ensures Shaped(r)
  {
    t.(procs := t.procs[p := t.procs[p].(chan := chan, state := SLEEPING)])
  }

  /** wakeup1 from slot k on. */
  ghost function WakeFrom(t: Table, chan: Chan, k: nat): (r: Table)
    requires Shaped(t) && k <= NPROC
    ensures Shaped(r)
    decreases NPROC - k
  {
    if k == NPROC then t
    else if t.procs[k].state == SLEEPING && t.procs[k].chan == chan then WakeFrom(Enqueue(t, k), chan, k + 1)
    else WakeFrom(t, chan, k + 1)
  }

  ghost function Wakeup(t: Table, chan: Chan): Table
    requires Shaped(t)
  {
    WakeFrom(t, chan, 0)
  }

  /** The first slot from k on that satisfies f, or NPROC. */
  ghost function Find(t: Table, f: Proc -> bool, k: nat): (r: nat)
    requires |t.procs| == NPROC && k <= NPROC
    ensures k <= r <= NPROC
    ensures r < NPROC ==> f(t.procs[r])
    ensures forall j :: k <= j < r ==> !f(t.procs[j])
    decreases NPROC - k
  {
    if k == NPROC then NPROC
    else if f(t.procs[k]) then k
    else Find(t, f, k + 1)
  }

  /** The slot that kill takes for a process with the pid, NPROC if there is none. */
  ghost function PidSlot(t: Table, pid: nat): (r: nat)
    requires |t.procs| == NPROC
    ensures r <= NPROC && (r < NPROC ==> t.procs[r].pid == pid)
    ensures forall p :: 0 <= p < r ==> t.procs[p].pid != pid
  {
    Find(t, (q: Proc) => q.pid == pid, 0)
  }

  ghost function Kill(t: Table, pid: nat): (r: Table)
    requires Shaped(t)
    ensures Shaped(r)
  {
    var p := PidSlot(t, pid);
    if p == NPROC then t
    else
      var u := t.(procs := t.procs[p := t.procs[p].(killed := true)]);
      if t.procs[p].state == SLEEPING then Enqueue(u, p) else u
  }

  /** allocproc's choice of a slot, NPROC if the table is full. */
  ghost function FreeSlot(t: Table): (r: nat)
    requires Shaped(t)
    ensures r <= NPROC
  {
    Find(t, (q: Proc) => q.state == UNUSED, 0)
  }

  /** allocproc: pid, state and priority are set; ticks and killed keep their old value. */
  ghost function Alloc(t: Table): (r: Table)
    requires Shaped(t) && FreeSlot(t) < NPROC
    ensures Shaped(r)
  {
    var p := FreeSlot(t);
    t.(procs := t.procs[p := t.procs[p].(state := EMBRYO, pid := t.nextpid, priority := 0)],
       nextpid := t.nextpid + 1)
  }

  /** A fork that ran out of memory gives the slot back. */
  ghost function Abandon(t: Table, np: int): (r: Table)
    requires Shaped(t) && IsSlot(np)
    ensures Shaped(r)
  {
    t.(procs := t.procs[np := t.procs[np].(state := UNUSED)])
  }

  /** The end of fork: the child gets its parent and becomes runnable. */
  ghost function Publish(t: Table, p: int, np: int): (r: Table)
    requires Shaped(t) && IsSlot(np)
    ensures Shaped(r)
  {
    Enqueue(t.(procs := t.procs[np := t.procs[np].(parent := p)]), np)
  }

  /** exit's loop over the table from slot k on: children of p go to init. */
  ghost function ReparentFrom(t: Table, p: int, k: nat): (r: Table)
    requires Shaped(t) && k <= NPROC
    ensures Shaped(r)
    decreases NPROC - k
  {
    if k == NPROC then t
    else if t.procs[k].parent == p then
      var u := t.(procs := t.procs[k := t.procs[k].(parent := INIT)]);
      ReparentFrom(if t.procs[k].state == ZOMBIE then Wakeup(u, OnProc(INIT)) else u, p, k + 1)
    else ReparentFrom(t, p, k + 1)
  }

  ghost function Exit(t: Table, p: int): (r: Table)
    requires Shaped(t) && IsSlot(p)
    ensures Shaped(r)
  {
    var u := ReparentFrom(Wakeup(t, OnProc(t.procs[p].parent)), p, 0);
    u.(procs := u.procs[p := u.procs[p].(state := ZOMBIE)])
  }

  ghost function ZombieChild(t: Table, p: int): (r: nat)
    requires Shaped(t)
    ensures r <= NPROC
  {
    Find(t, (q: Proc) => q.parent == p && q.state == ZOMBIE, 0)
  }

  ghost predicate HasKids(t: Table, p: int)
    requires Shaped(t)
  {
    exists c :: 0 <= c < NPROC && t.procs[c].parent == p
  }

  ghost function Reap(t: Table, c: int): (r: Table)
    requires Shaped(t) && IsSlot(c)
    ensures Shaped(r)
  {
    t.(procs := t.procs[c := t.procs[c].(pid := 0, parent := NULL, killed := false, state := UNUSED)])
  }

  /** One pass of wait's loop. */
  datatype WaitResult = Reaped(pid: nat) | NoChildren | Slept

  ghost function WaitOutcome(t: Table, p: int): WaitResult
    requires Shaped(t) && IsSlot(p)
  {
    if ZombieChild(t, p) < NPROC then Reaped(t.procs[ZombieChild(t, p)].pid)
    else if !HasKids(t, p) || t.procs[p].killed then NoChildren
    else Slept
  }

  ghost function Wait(t: Table, p: int): (r: Table)
    requires Shaped(t) && IsSlot(p)
    ensures Shaped(r)
  {
    match WaitOutcome(t, p)
    case Reaped(_) => Reap(t, ZombieChild(t, p))
    case NoChildren => t
    case Slept => Sleep(t, p, OnProc(p))
  }

  /** The timer branch at the end of trap: charge a tick, and yield if the quantum is used up. */
  ghost predicate MustYield(q: Proc) {
    Pow2(q.priority) <= q.ticks + 1
  }

  ghost function Charge(t: Table, p: int): (r: Table)
    requires Shaped(t) && IsSlot(p)
    ensures Shaped(r)
  {
    var u := t.(procs := t.procs[p := t.procs[p].(ticks := t.procs[p].ticks + 1)]);
    if MustYield(t.procs[p]) then Yield(u, p) else u
  }

  /** After userinit: init is the only process, runnable at the highest priority. */
  ghost function Initial(): (t: Table)
  {
    var free := Proc(UNUSED, 0, NULL, NoChan, false, 0, 0);
    Table([free.(state := RUNNABLE, pid := 1)] + seq(NPROC - 1, _ => free),
          [[INIT]] + seq(NPRIO - 1, _ => []), 2)
  }

  /** Every RUNNABLE process is in the queue of its priority, exactly once, and nothing else is. */
  ghost predicate Queued(t: Table) {
    && Shaped(t)
    && (forall i, k :: 0 <= i < NPRIO && 0 <= k < |t.queues[i]| ==>
          IsSlot(t.queues[i][k])
          && t.procs[t.queues[i][k]].state == RUNNABLE && t.procs[t.queues[i][k]].priority == i)
    && (forall i, j, k :: 0 <= i < NPRIO && 0 <= j < k < |t.queues[i]| ==> t.queues[i][j] != t.queues[i][k])
    && (forall p :: 0 <= p < NPROC && t.procs[p].state == RUNNABLE ==> p in t.queues[t.procs[p].priority])
  }

  lemma {:induction false} EnqueueQueued(t: Table, p: int)
    requires Queued(t) && IsSlot(p) && t.procs[p].state != RUNNABLE
    ensures Queued(Enqueue(t, p))
  {
    var r, i := Enqueue(t, p), t.procs[p].priority;
    assert r.queues[i][|t.queues[i]|] == p;
    forall q | 0 <= q < NPROC && r.procs[q].state == RUNNABLE ensures q in r.queues[r.procs[q].priority] {
      if q != p { assert q in t.queues[t.procs[q].priority]; }
    }
  }

  lemma {:induction false} DispatchQueued(t: Table)
    requires Queued(t) && FirstBusy(t.queues) < NPRIO
    ensures Shaped(t) && Queued(Dispatch(t))
  {
    var r, i := Dispatch(t), FirstBusy(t.queues);
    var p := t.queues[i][0];
    assert t.queues[i] == [p] + r.queues[i];
    forall q | 0 <= q < NPROC && r.procs[q].state == RUNNABLE ensures q in r.queues[r.procs[q].priority] {
      assert q in t.queues[t.procs[q].priority];
    }
  }

  /** The first n queues together: every runnable process of those priorities, once. */
  lemma {:induction false} FlattenFacts(t: Table, n: nat)
    requires Queued(t) && n <= NPRIO
    ensures Distinct(Flatten(t.queues[..n]))
    ensures forall x :: x in Flatten(t.queues[..n]) <==>
              IsSlot(x) && t.procs[x].state == RUNNABLE && t.procs[x].priority < n
  {
    if n > 0 {
      FlattenFacts(t, n - 1);
      assert t.queues[..n][..n - 1] == t.queues[..n - 1];
      var a, b := Flatten(t.queues[..n - 1]), t.queues[n - 1];
      assert forall x :: x in b ==> IsSlot(x) && t.procs[x].state == RUNNABLE && t.procs[x].priority == n - 1;
      assert Distinct(a + b) by {
        assert forall j :: 0 <= j < |a| ==> a[j] in a && a[j] !in b;
      }
    }
  }

  lemma {:induction false} BoostQueued(t: Table)
    requires Queued(t)
    ensures Shaped(t) && Queued(Boost(t))
  {
    FlattenFacts(t, NPRIO);
    assert t.queues[..NPRIO] == t.queues;
    var r := Boost(t);
    assert forall k :: 0 <= k < |r.queues[0]| ==> r.queues[0][k] in Flatten(t.queues);
  }

  /** Changes that leave every runnable process runnable, in its queue, keep the queues right. */
  lemma {:induction false} QueuedFrame(t: Table, u: Table)
    requires Queued(t) && Shaped(u) && u.queues == t.queues
    requires forall p :: 0 <= p < NPROC ==>
               && (u.procs[p].state == RUNNABLE <==> t.procs[p].state == RUNNABLE)
               && (t.procs[p].state == RUNNABLE ==> u.procs[p].priority == t.procs[p].priority)
    ensures Queued(u)
  {
  }

  /** Every queue of t is a prefix of the same queue of u. */
  ghost predicate Appends(t: Table, u: Table)
    requires Shaped(t) && Shaped(u)
  {
    u.nextpid == t.nextpid && forall i :: 0 <= i < NPRIO ==> t.queues[i] <= u.queues[i]
  }

  ghost predicate Wakes(t: Table, chan: Chan, k: nat, p: int)
    requires Shaped(t) && 0 <= p < NPROC
  {
    p >= k && t.procs[p].state == SLEEPING && t.procs[p].chan == chan
  }

  /** wakeup1 makes exactly the processes sleeping on the channel runnable. */
  lemma {:induction false} WakeEffect(t: Table, chan: Chan, k: nat)
    requires Shaped(t) && Queued(t) && k <= NPROC
    ensures var r := WakeFrom(t, chan, k);
            && Queued(r) && Appends(t, r)
            && forall p :: 0 <= p < NPROC ==>
                 r.procs[p] == if Wakes(t, chan, k, p) then t.procs[p].(state := RUNNABLE) else t.procs[p]
    decreases NPROC - k
  {
    hide Queued;
    if k < NPROC {
      if Wakes(t, chan, k, k) {
        EnqueueQueued(t, k);
        WakeEffect(Enqueue(t, k), chan, k + 1);
      } else {
        WakeEffect(t, chan, k + 1);
      }
    }
  }

  ghost predicate OrphanZombie(t: Table, p: int, k: nat)
    requires Shaped(t)
  {
    exists c :: k <= c < NPROC && t.procs[c].parent == p && t.procs[c].state == ZOMBIE
  }

  /** Process q once exit's loop, entered at slot k, has run. */
  ghost function Reparented(t: Table, p: int, k: nat, q: int): Proc
    requires Shaped(t) && 0 <= q < NPROC
  {
    t.procs[q].(parent := if q >= k && t.procs[q].parent == p then INIT else t.procs[q].parent,
                state := if OrphanZombie(t, p, k) && Wakes(t, OnProc(INIT), 0, q) then RUNNABLE else t.procs[q].state)
  }

  ghost predicate ReparentedTo(t: Table, p: int, k: nat, r: Table)
    requires Shaped(t)
  {
    && Shaped(r) && Queued(r) && Appends(t, r)
    && forall q :: 0 <= q < NPROC ==> r.procs[q] == Reparented(t, p, k, q)
  }

  lemma {:induction false} ReparentChild(t: Table, p: int, k: nat, v: Table, r: Table)
    requires Shaped(t) && k < NPROC && t.procs[k].parent == p
    requires Shaped(v) && Appends(t, v)
    requires forall q :: 0 <= q < NPROC ==>
               v.procs[q] == t.procs[q].(
                 parent := if q == k then INIT else t.procs[q].parent,
                 state := if t.procs[k].state == ZOMBIE && Wakes(t, OnProc(INIT), 0, q) then RUNNABLE
                          else t.procs[q].state)
    requires ReparentedTo(v, p, k + 1, r)
    ensures ReparentedTo(t, p, k, r)
  {
    hide Queued;
    assert OrphanZombie(t, p, k) <==> t.procs[k].state == ZOMBIE || OrphanZombie(v, p, k + 1);
  }

  /** exit's loop hands every child of p to init, and wakes init if one of them is a zombie. */
  lemma {:induction false} ReparentEffect(t: Table, p: int, k: nat)
    requires Shaped(t) && Queued(t) && k <= NPROC
    ensures ReparentedTo(t, p, k, ReparentFrom(t, p, k))
    decreases NPROC - k
  {
    hide Queued;
    if k < NPROC {
      if t.procs[k].parent == p {
        var u := t.(procs := t.procs[k := t.procs[k].(parent := INIT)]);
        QueuedFrame(t, u);
        WakeEffect(u, OnProc(INIT), 0);
        var v := if t.procs[k].state == ZOMBIE then Wakeup(u, OnProc(INIT)) else u;
        ReparentEffect(v, p, k + 1);
        ReparentChild(t, p, k, v, ReparentFrom(v, p, k + 1));
      } else {
        ReparentEffect(t, p, k + 1);
        assert OrphanZombie(t, p, k) <==> OrphanZombie(t, p, k + 1);
      }
    }
  }
}
